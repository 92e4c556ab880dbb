/** What every reachable oracle world keeps: each waiting charge was armed at or above the floor price, within
    the TTL, by a tick of its own, and the daemon's ledgers are consistent with the log. Also the shape of every
    tick, which the theorems of the other oracle modules are proved from. */
module OracleSafety {
  import opened Bytes
  import opened OracleModel

  // ---- Reading the history ----

  /** The charge an observation is about: an arming, or the delivery of an attestation. */
  function About(o: Obs): Option<Str> {
    match o
    case Armed(c, _, _, _) => Some(c)
    case Delivered(_, _, Attestation(a)) => Some(a.chargeId)
    case Delivered(_, _, _) => None
  }

  predicate IsAttestation(o: Obs) {
    o.Delivered? && o.text.Attestation?
  }

  /** The last thing the log says about `c`. */
  function LastAbout(log: seq<Obs>, c: Str): Option<Obs> {
    if log == [] then None
    else
      var last := log[|log| - 1];
      if About(last) == Some(c) then Some(last) else LastAbout(log[..|log| - 1], c)
  }

  /** `c` has been answered and not armed again since. */
  predicate Spent(log: seq<Obs>, c: Str) {
    var last := LastAbout(log, c);
    last.Some? && last.value.Delivered?
  }

  /** Every attestation answers an arming of its charge that nothing has answered before it. */
  ghost predicate OneAnswerPerArming(log: seq<Obs>) {
    forall i :: 0 <= i < |log| && IsAttestation(log[i]) ==> Awaiting(log[..i], log[i].text.answer.chargeId)
  }

  /** `c` has been armed and not answered since. */
  predicate Awaiting(log: seq<Obs>, c: Str) {
    var last := LastAbout(log, c);
    last.Some? && last.value.Armed?
  }

  lemma LastAboutAppend(log: seq<Obs>, o: Obs, c: Str)
    ensures LastAbout(log + [o], c) == if About(o) == Some(c) then Some(o) else LastAbout(log, c)
  {
    assert (log + [o])[..|log|] == log;
  }

  lemma OneAnswerAppend(log: seq<Obs>, o: Obs)
    requires OneAnswerPerArming(log)
    requires IsAttestation(o) ==> Awaiting(log, o.text.answer.chargeId)
    ensures OneAnswerPerArming(log + [o])
  {
    var log' := log + [o];
    forall i | 0 <= i < |log'| && IsAttestation(log'[i]) ensures Awaiting(log'[..i], log'[i].text.answer.chargeId) {
      assert log'[..i] == log[..i];
      assert i == |log| ==> log'[..i] == log;
    }
  }

  // ---- The invariant of every reachable world ----

  predicate ArmedAs(log: seq<Obs>, c: Str, pc: PendingCharge) {
    Armed(c, pc.sender, pc.amountSats, pc.issuedSeq) in log
  }

  /** Each waiting charge was armed, at or above the floor price, within the TTL, by its own tick. */
  ghost predicate PendingOk(pending: map<Str, PendingCharge>, log: seq<Obs>, committed: nat) {
    && (forall c :: c in pending ==>
          && ArmedAs(log, c, pending[c])
          && pending[c].amountSats >= MIN_CHARGE_SATS
          && (pending[c].answer.Some? ==> pending[c].answer.value.chargeId == c)
          && LastAbout(log, c).Some?
          && pending[c].issuedSeq <= committed <= pending[c].issuedSeq + PENDING_TTL_TICKS)
    && (forall c1, c2 :: c1 in pending && c2 in pending && c1 != c2 ==>
          pending[c1].issuedSeq != pending[c2].issuedSeq)
  }

  /** Inbox numbers grow. */
  ghost predicate Growing(arrived: seq<Event>) {
    && (forall i :: 0 <= i < |arrived| ==> arrived[i].inboxSeq > 0)
    && (forall i, j :: 0 <= i < j < |arrived| ==> arrived[i].inboxSeq < arrived[j].inboxSeq)
  }

  /** Charge ids are handed out once. */
  ghost predicate IdsDistinct(charges: map<Str, Charge>) {
    forall k1, k2 :: k1 in charges && k2 in charges && charges[k1].id == charges[k2].id ==> k1 == k2
  }

  /** `ev` is a price request that could have armed `o`. */
  ghost predicate Arms(cfg: Codec, d: Daemon, ev: Event, o: Obs) {
    && ev in d.arrived
    && o.Armed? && o.sender == ev.sourcePubkey
    && ChargeKey(cfg, ev) in d.charges
    && d.charges[ChargeKey(cfg, ev)].id == o.chargeId
  }

  /** What survives a tick besides the waiting-set. */
  ghost predicate DaemonOk(cfg: Codec, d: Daemon) {
    && Growing(d.arrived)
    && IdsDistinct(d.charges)
    && (forall o :: o in d.log && o.Armed? ==> exists ev :: Arms(cfg, d, ev, o))
  }

  ghost predicate Inv(cfg: Codec, w: World) {
    && PendingOk(w.g.pending, w.d.log, w.g.committed)
    && DaemonOk(cfg, w.d)
  }

  // ---- The inbox ----

  lemma {:induction false} WaitingIsInArrived(arrived: seq<Event>, cursor: nat)
    ensures forall e :: e in Waiting(arrived, cursor) <==> e in arrived && Wanted(e) && e.inboxSeq > cursor
  {
    if arrived != [] {
      WaitingIsInArrived(arrived[1..], cursor);
      assert arrived == [arrived[0]] + arrived[1..];
    }
  }

  /** A polled event arrived, is wanted, lies past the cursor, and nothing waiting is older. */
  lemma PolledEvent(d: Daemon, ack: nat, fate: PollFate)
    ensures PollOne(d, ack, fate).0 == d.(floor := PollOne(d, ack, fate).0.floor)
    ensures PollOne(d, ack, fate).1.Some? ==>
              var ev := PollOne(d, ack, fate).1.value;
              && fate.PollOk?
              && ev in d.arrived && Wanted(ev) && ev.inboxSeq > ack && ev.inboxSeq > d.floor
              && (forall e :: e in d.arrived && Wanted(e) && e.inboxSeq > Max(d.floor, ack) ==>
                   ev.inboxSeq <= e.inboxSeq)
  {
    WaitingIsInArrived(d.arrived, Max(d.floor, ack));
  }

  /** The event the next successful poll would serve. */
  function Head(g: Genome, d: Daemon): Option<Event> {
    PollOne(d, g.ack, PollOk).1
  }

  /** The genome as the tick hands it to the branch that handles the event. */
  function Aged(g: Genome): Genome {
    g.(pending := AgeOut(g.pending, g.committed + 1))
  }

  lemma PolledIsHead(g: Genome, d: Daemon, fate: PollFate)
    ensures PollOne(d, g.ack, fate).1 == if fate.PollOk? then Head(g, d) else None
  {
  }

  /** The tick, by the event it polled. */
  lemma TickIs(cfg: Codec, g0: Genome, d0: Daemon, env: TickEnv) returns (d: Daemon)
    ensures d == PollOne(d0, g0.ack, env.poll).0
    ensures d == d0.(floor := d.floor) && Max(d.floor, g0.ack) == Max(d0.floor, g0.ack)
    ensures var r := Tick(cfg, g0, d0, g0.committed + 1, env);
            if env.poll.PollOk? && Head(g0, d0).Some?
            then r == HandleEvent(cfg, Aged(g0), d, g0.committed + 1, Head(g0, d0).value, env)
            else r == TickResult(Aged(g0), d, Lived(false))
  {
    hide HandleEvent;
    hide Oldest;
    hide Waiting;
    d := PollOne(d0, g0.ack, env.poll).0;
  }

  // ---- Gathering prices touches neither the log nor the charges nor the DM keys ----

  predicate FetchesOnly(d: Daemon, d': Daemon) {
    && d'.arrived == d.arrived && d'.floor == d.floor && d'.charges == d.charges && d'.log == d.log
    && d.recorded <= d'.recorded
    && (forall k :: k in d'.recorded && k !in d.recorded ==> k.FetchKey?)
    && d.asked <= d'.asked
    && (forall i :: |d.asked| <= i < |d'.asked| ==> d'.asked[i].AskFetch?)
  }

  lemma {:induction false} TryFeedFetchesOnly(d: Daemon, seqNo: nat, feed: nat, attempt: nat, env: TickEnv)
    requires attempt <= FETCH_ATTEMPTS
    ensures FetchesOnly(d, TryFeed(d, seqNo, feed, attempt, env).0)
    decreases FETCH_ATTEMPTS - attempt
  {
    if attempt < FETCH_ATTEMPTS {
      var (d', price) := Fetch(d, seqNo, feed, attempt, env.fetch(feed, attempt));
      assert FetchesOnly(d, d');
      if price.None? {
        TryFeedFetchesOnly(d', seqNo, feed, attempt + 1, env);
      }
    }
  }

  lemma {:induction false} GatherFetchesOnly(d: Daemon, seqNo: nat, feed: nat, env: TickEnv, answered: seq<(nat, real)>)
    requires feed <= FEED_COUNT
    ensures FetchesOnly(d, Gather(d, seqNo, feed, env, answered).0)
    decreases FEED_COUNT - feed
  {
    if feed < FEED_COUNT {
      var (d', price) := TryFeed(d, seqNo, feed, 0, env);
      TryFeedFetchesOnly(d, seqNo, feed, 0, env);
      GatherFetchesOnly(d', seqNo, feed + 1, env, if price.Some? then answered + [(feed, price.value)] else answered);
    }
  }

  /** `ev` settles the waiting charge `c` for at least the quoted sats. */
  ghost predicate Settles(cfg: Codec, ev: Event, c: Str, pending: map<Str, PendingCharge>) {
    && ev.kind == PaymentSettled
    && cfg.decodeSettled(ev.payload).Some?
    && cfg.decodeSettled(ev.payload).value.chargeId == c
    && (ev.correlationId == [] || ev.correlationId == c)
    && c in pending
    && cfg.decodeSettled(ev.payload).value.verifiedSats >= pending[c].amountSats
  }

  // ---- One tick keeps the invariant ----

  lemma AgeOutPendingOk(pending: map<Str, PendingCharge>, log: seq<Obs>, committed: nat)
    requires PendingOk(pending, log, committed)
    ensures PendingOk(AgeOut(pending, committed + 1), log, committed)
    ensures PendingOk(AgeOut(pending, committed + 1), log, committed + 1)
    ensures forall c :: c in AgeOut(pending, committed + 1) ==> pending[c].issuedSeq < committed + 1
  {
  }

  lemma PendingOkAppend(pending: map<Str, PendingCharge>, log: seq<Obs>, o: Obs, committed: nat)
    requires PendingOk(pending, log, committed)
    ensures PendingOk(pending, log + [o], committed)
  {
    forall c | c in pending ensures ArmedAs(log + [o], c, pending[c]) && LastAbout(log + [o], c).Some? {
      LastAboutAppend(log, o, c);
    }
  }

  lemma DaemonOkQuiet(cfg: Codec, d: Daemon, d': Daemon)
    requires DaemonOk(cfg, d)
    requires d'.arrived == d.arrived && d'.charges == d.charges
    requires d'.log == d.log || exists o: Obs :: !o.Armed? && d'.log == d.log + [o]
    ensures DaemonOk(cfg, d')
  {
    forall o | o in d'.log && o.Armed? ensures exists ev :: Arms(cfg, d', ev, o) {
      assert o in d.log;
      var ev :| Arms(cfg, d, ev, o);
      assert Arms(cfg, d', ev, o);
    }
  }

  /** The charge a settlement event names, if it decodes. */
  function SettledCharge(cfg: Codec, ev: Event): Option<Str> {
    var s := cfg.decodeSettled(ev.payload);
    if s.None? then None else Some(s.value.chargeId)
  }

  ghost predicate CachesMatch(pending: map<Str, PendingCharge>) {
    forall c :: c in pending && pending[c].answer.Some? ==> pending[c].answer.value.chargeId == c
  }

  /** A settlement that does not settle a waiting charge sends nothing and keeps every other charge. */
  lemma UnsettledShape(cfg: Codec, g: Genome, d: Daemon, seqNo: nat, ev: Event, env: TickEnv)
    requires ev.kind == PaymentSettled
    requires SettledCharge(cfg, ev).None? || !Settles(cfg, ev, SettledCharge(cfg, ev).value, g.pending)
    ensures var r := SettleTick(cfg, g, d, seqNo, ev, env);
            && r.d == d && r.outcome == Lived(false)
            && (r.g == Consume(g, ev)
                 || (SettledCharge(cfg, ev).Some? && r.g == Forget(Consume(g, ev), SettledCharge(cfg, ev).value)))
  {
  }

  lemma BuildAnswerShape(cfg: Codec, d: Daemon, seqNo: nat, c: Str, env: TickEnv)
    ensures FetchesOnly(d, BuildAnswer(cfg, d, seqNo, c, env).0)
    ensures BuildAnswer(cfg, d, seqNo, c, env).1.chargeId == c
  {
    GatherFetchesOnly(d, seqNo, 0, env, []);
  }

  /** What a DM send may change. */
  lemma SendShape(d: Daemon, seqNo: nat, to: Str, text: DmText, fate: DmFate)
    ensures var (d', reply) := SendDm(d, seqNo, to, text, fate);
            && d'.arrived == d.arrived && d'.charges == d.charges && d'.floor == d.floor
            && d'.asked == d.asked + [AskDm(seqNo, to, text)]
            && d.recorded <= d'.recorded <= d.recorded + {DmKey(seqNo)}
            && (d'.log == d.log ||
                (d'.log == d.log + [Delivered(seqNo, to, text)] && DmKey(seqNo) !in d.recorded
                    && DmKey(seqNo) in d'.recorded))
  {
  }

  /** A settlement of the waiting charge `c` sends the attestation `a` for `c` to the sender who
      armed it, under the tick's own key; only the loss of the reply keeps `c` waiting, with `a`. */
  lemma SettledShape(cfg: Codec, g: Genome, d: Daemon, seqNo: nat, ev: Event, c: Str, env: TickEnv) returns (a: Answer)
    requires Settles(cfg, ev, c, g.pending) && CachesMatch(g.pending)
    ensures a.chargeId == c
    ensures var r := SettleTick(cfg, g, d, seqNo, ev, env);
            var to := g.pending[c].sender;
            && r.d.arrived == d.arrived && r.d.charges == d.charges && r.d.floor == d.floor
            && (r.d.log == d.log ||
                (r.d.log == d.log + [Delivered(seqNo, to, Attestation(a))] && DmKey(seqNo) !in d.recorded
                    && DmKey(seqNo) in r.d.recorded))
            && (DmKey(seqNo) in d.recorded ==> DmKey(seqNo) in r.d.recorded)
            && (if r.outcome.Transient?
                then r.g == g.(pending := g.pending[c := g.pending[c].(answer := Some(a))])
                else r.g == Forget(Consume(g, ev), c) && r.outcome.Lived?)
  {
    var pc := g.pending[c];
    BuildAnswerShape(cfg, d, seqNo, c, env);
    hide BuildAnswer;
    var (d1, answer) := if pc.answer.Some? then (d, pc.answer.value) else BuildAnswer(cfg, d, seqNo, c, env);
    a := answer;
    SendShape(d1, seqNo, pc.sender, Attestation(a), env.dm);
    hide SendDm;
    assert g.pending[c := pc.(answer := Some(a))] - {c} == g.pending - {c};
  }

  lemma SettleKeeps(cfg: Codec, g: Genome, d: Daemon, seqNo: nat, ev: Event, env: TickEnv, n: nat)
    requires ev.kind == PaymentSettled
    requires PendingOk(g.pending, d.log, n) && DaemonOk(cfg, d)
    ensures var r := SettleTick(cfg, g, d, seqNo, ev, env);
            PendingOk(r.g.pending, r.d.log, n) && DaemonOk(cfg, r.d) && !r.outcome.Dead? && r.g.committed == g.committed
  {
    var r := SettleTick(cfg, g, d, seqNo, ev, env);
    if SettledCharge(cfg, ev).None? || !Settles(cfg, ev, SettledCharge(cfg, ev).value, g.pending) {
      UnsettledShape(cfg, g, d, seqNo, ev, env);
    } else {
      var c := SettledCharge(cfg, ev).value;
      var a := SettledShape(cfg, g, d, seqNo, ev, c, env);
      PendingOkAppend(g.pending, d.log, Delivered(seqNo, g.pending[c].sender, Attestation(a)), n);
      PendingOkUpdate(g.pending, r.d.log, n, c, r.g.pending);
      DaemonOkQuiet(cfg, d, r.d);
    }
  }

  lemma PendingOkUpdate(pending: map<Str, PendingCharge>, log: seq<Obs>, n: nat, c: Str,
        pending': map<Str, PendingCharge>)
    requires PendingOk(pending, log, n) && c in pending
    requires || pending' == pending - {c}
             || exists a: Answer :: a.chargeId == c && pending' == pending[c := pending[c].(answer := Some(a))]
    ensures PendingOk(pending', log, n)
  {
  }

  /** The self-report changes neither the waiting-set nor any charge. */
  lemma StatusKeeps(cfg: Codec, g: Genome, d: Daemon, seqNo: nat, ev: Event, env: TickEnv, n: nat)
    requires PendingOk(g.pending, d.log, n) && DaemonOk(cfg, d)
    ensures var r := StatusTick(g, d, seqNo, ev, env);
            PendingOk(r.g.pending, r.d.log, n) && DaemonOk(cfg, r.d) && !r.outcome.Dead? && r.g.committed == g.committed
  {
    PendingOkAppend(g.pending, d.log, Delivered(seqNo, ev.sourcePubkey, Books), n);
    DaemonOkQuiet(cfg, d, StatusTick(g, d, seqNo, ev, env).d);
  }

  lemma IssueKeepsIds(d: Daemon, key: Str, amount: nat, fate: ChargeFate)
    requires IdsDistinct(d.charges)
    ensures var (d', reply) := IssueCharge(d, key, amount, fate);
            && IdsDistinct(d'.charges)
            && (forall k :: k in d.charges ==> k in d'.charges && d'.charges[k] == d.charges[k])
            && d' == d.(asked := d'.asked, charges := d'.charges)
            && (reply.ChargeIs? ==> key in d'.charges && d'.charges[key] == reply.charge)
  {
    if fate.ChargeReached? && key !in d.charges && fate.grant.Some? && fate.grant.value !in ChargeIds(d.charges) {
      forall k | k in d.charges ensures d.charges[k].id != fate.grant.value {
        assert d.charges[k].id in ChargeIds(d.charges);
      }
    }
  }

  lemma DaemonOkCharges(cfg: Codec, d: Daemon, d': Daemon)
    requires DaemonOk(cfg, d)
    requires d'.arrived == d.arrived && d'.log == d.log && IdsDistinct(d'.charges)
    requires forall k :: k in d.charges ==> k in d'.charges && d'.charges[k] == d.charges[k]
    ensures DaemonOk(cfg, d')
  {
    forall o | o in d'.log && o.Armed? ensures exists ev :: Arms(cfg, d', ev, o) {
      var ev :| Arms(cfg, d, ev, o);
      assert Arms(cfg, d', ev, o);
    }
  }

  lemma DaemonOkArmed(cfg: Codec, d: Daemon, ev: Event, o: Obs)
    requires DaemonOk(cfg, d) && Arms(cfg, d, ev, o)
    ensures DaemonOk(cfg, d.(log := d.log + [o]))
  {
    var d' := d.(log := d.log + [o]);
    forall p | p in d'.log && p.Armed? ensures exists ev :: Arms(cfg, d', ev, p) {
      if p == o { assert Arms(cfg, d', ev, p); }
      else {
        var ev :| Arms(cfg, d, ev, p);
        assert Arms(cfg, d', ev, p);
      }
    }
  }

  /** A price tick that arms nothing leaves the waiting-set and appends at most an invoice. */
  ghost predicate NotArmed(g: Genome, d: Daemon, r: TickResult) {
    && r.g.pending == g.pending
    && (r.d.log == d.log || exists o: Obs :: About(o).None? && r.d.log == d.log + [o])
  }

  /** A price tick that arms: the invoice, if it went out, then the arming of the stored charge. */
  ghost predicate DidArm(cfg: Codec, g: Genome, d: Daemon, seqNo: nat, ev: Event, c: Str, amount: nat,
        pc: PendingCharge, r: TickResult) {
    && r.outcome.Lived?
    && ChargeKey(cfg, ev) in r.d.charges && r.d.charges[ChargeKey(cfg, ev)].id == c
    && amount >= MIN_CHARGE_SATS
    && pc.sender == ev.sourcePubkey && pc.amountSats == amount && pc.issuedSeq == seqNo && pc.answer.None?
    && r.g.pending == g.pending[c := pc]
    && (|| r.d.log == d.log + [Armed(c, ev.sourcePubkey, amount, seqNo)]
        || r.d.log == d.log + [Delivered(seqNo, ev.sourcePubkey, Invoice(c))]
             + [Armed(c, ev.sourcePubkey, amount, seqNo)])
  }

  lemma InvoiceShape(cfg: Codec, g: Genome, d: Daemon, seqNo: nat, ev: Event, request: Request, charge: Charge,
        env: TickEnv)
    returns (pc: PendingCharge)
    requires ChargeKey(cfg, ev) in d.charges && d.charges[ChargeKey(cfg, ev)] == charge
    requires charge.amountSats >= MIN_CHARGE_SATS
    ensures var r := InvoiceTick(g, d, seqNo, ev, request, charge, env);
            && r.d.arrived == d.arrived && r.d.charges == d.charges && r.d.floor == d.floor
            && r.g.committed == g.committed
            && (NotArmed(g, d, r) || DidArm(cfg, g, d, seqNo, ev, charge.id, charge.amountSats, pc, r))
  {
    pc := PendingCharge(ev.sourcePubkey, request, seqNo, charge.amountSats, None);
    var sent := Delivered(seqNo, ev.sourcePubkey, Invoice(charge.id));
    var (d', reply) := SendDm(d, seqNo, ev.sourcePubkey, Invoice(charge.id), env.dm);
    assert About(sent).None?;
    assert d'.log == d.log || d'.log == d.log + [sent];
  }

  lemma PriceShape(cfg: Codec, g: Genome, d: Daemon, seqNo: nat, ev: Event, request: Request, env: TickEnv)
    returns (c: Str, amount: nat, pc: PendingCharge)
    requires IdsDistinct(d.charges)
    ensures var r := PriceTick(cfg, g, d, seqNo, ev, request, env);
            && r.d.arrived == d.arrived && IdsDistinct(r.d.charges) && r.d.floor == d.floor
            && (forall k :: k in d.charges ==> k in r.d.charges && r.d.charges[k] == d.charges[k])
            && r.g.committed == g.committed
            && (NotArmed(g, d, r) || DidArm(cfg, g, d, seqNo, ev, c, amount, pc, r))
  {
    c, amount, pc := [], 0, PendingCharge([], request, 0, 0, None);
    if env.think.ThinkPerformed? {
      amount := ClampQuote(env.think.quotedSats);
      var d0 := d.(asked := d.asked + [AskThink(seqNo)]);
      IssueKeepsIds(d0, ChargeKey(cfg, ev), amount, env.charge);
      var (d1, issued) := IssueCharge(d0, ChargeKey(cfg, ev), amount, env.charge);
      if issued.ChargeIs? && issued.charge.amountSats == amount {
        c := issued.charge.id;
        var g0 := g.(poison := 0);
        pc := InvoiceShape(cfg, g0, d1, seqNo, ev, request, issued.charge, env);
        var r := InvoiceTick(g0, d1, seqNo, ev, request, issued.charge, env);
        assert r == PriceTick(cfg, g, d, seqNo, ev, request, env);
        if NotArmed(g0, d1, r) {
          assert NotArmed(g, d, r);
        } else {
          assert DidArm(cfg, g, d, seqNo, ev, c, amount, pc, r);
        }
      }
    }
  }

  lemma PriceKeeps(cfg: Codec, g: Genome, d: Daemon, seqNo: nat, ev: Event, request: Request, env: TickEnv, n: nat)
    requires PendingOk(g.pending, d.log, n) && DaemonOk(cfg, d) && ev in d.arrived
    requires forall c :: c in g.pending ==> g.pending[c].issuedSeq < seqNo
    requires PriceTick(cfg, g, d, seqNo, ev, request, env).outcome.Lived? ==> n == seqNo
    ensures var r := PriceTick(cfg, g, d, seqNo, ev, request, env);
            PendingOk(r.g.pending, r.d.log, n) && DaemonOk(cfg, r.d) && r.g.committed == g.committed
  {
    var r := PriceTick(cfg, g, d, seqNo, ev, request, env);
    var c, amount, pc := PriceShape(cfg, g, d, seqNo, ev, request, env);
    var d1 := d.(charges := r.d.charges);
    DaemonOkCharges(cfg, d, d1);
    if DidArm(cfg, g, d, seqNo, ev, c, amount, pc, r) {
      var armed := Armed(c, ev.sourcePubkey, amount, seqNo);
      var mid := r.d.log[..|r.d.log| - 1];
      var d2 := d1.(log := mid);
      assert mid == d.log || mid == d.log + [Delivered(seqNo, ev.sourcePubkey, Invoice(c))];
      PendingOkAppend(g.pending, d.log, Delivered(seqNo, ev.sourcePubkey, Invoice(c)), n);
      DaemonOkQuiet(cfg, d1, d2);
      ArmKeepsPending(g.pending, mid, n, c, pc);
      assert r.d.log == mid + [armed];
      assert Arms(cfg, d2, ev, armed);
      DaemonOkArmed(cfg, d2, ev, armed);
      DaemonOkQuiet(cfg, d2.(log := r.d.log), r.d);
    } else {
      if r.d.log != d.log {
        var o :| About(o).None? && r.d.log == d.log + [o];
        PendingOkAppend(g.pending, d.log, o, n);
      }
      DaemonOkQuiet(cfg, d1, r.d);
    }
  }

  /** Arming at the tick's own number keeps the armed numbers distinct. */
  lemma ArmKeepsPending(pending: map<Str, PendingCharge>, log: seq<Obs>, seqNo: nat, c: Str, pc: PendingCharge)
    requires PendingOk(pending, log, seqNo)
    requires forall k :: k in pending ==> pending[k].issuedSeq < seqNo
    requires pc.amountSats >= MIN_CHARGE_SATS && pc.issuedSeq == seqNo && pc.answer.None?
    ensures PendingOk(pending[c := pc], log + [Armed(c, pc.sender, pc.amountSats, seqNo)], seqNo)
  {
    var o := Armed(c, pc.sender, pc.amountSats, seqNo);
    PendingOkAppend(pending, log, o, seqNo);
    LastAboutAppend(log, o, c);
    assert o in log + [o];
  }

  lemma HandleKeeps(cfg: Codec, g: Genome, d: Daemon, seqNo: nat, ev: Event, env: TickEnv, n: nat)
    requires PendingOk(g.pending, d.log, n) && DaemonOk(cfg, d) && ev in d.arrived
    requires forall c :: c in g.pending ==> g.pending[c].issuedSeq < seqNo
    requires HandleEvent(cfg, g, d, seqNo, ev, env).outcome.Lived? ==> n == seqNo
    ensures var r := HandleEvent(cfg, g, d, seqNo, ev, env);
            PendingOk(r.g.pending, r.d.log, n) && DaemonOk(cfg, r.d) && r.g.committed == g.committed
  {
    if ev.kind == PaymentSettled {
      SettleKeeps(cfg, g, d, seqNo, ev, env, n);
    } else {
      match cfg.classify(ev.payload)
      case Status => StatusKeeps(cfg, g, d, seqNo, ev, env, n);
      case Unsupported =>
      case Price(_, _) => PriceKeeps(cfg, g, d, seqNo, ev, cfg.classify(ev.payload), env, n);
    }
  }

  lemma HeadArrived(g: Genome, d: Daemon)
    ensures Head(g, d).Some? ==> Head(g, d).value in d.arrived && Wanted(Head(g, d).value)
  {
    PolledEvent(d, g.ack, PollOk);
  }

  lemma AgedOk(g: Genome, d: Daemon)
    requires PendingOk(g.pending, d.log, g.committed)
    ensures PendingOk(Aged(g).pending, d.log, g.committed) && PendingOk(Aged(g).pending, d.log, g.committed + 1)
    ensures CachesMatch(Aged(g).pending)
    ensures forall c :: c in Aged(g).pending ==>
              Aged(g).pending[c].issuedSeq < g.committed + 1 <= Aged(g).pending[c].issuedSeq + PENDING_TTL_TICKS
  {
    AgeOutPendingOk(g.pending, d.log, g.committed);
  }

  lemma TickKeeps(cfg: Codec, g0: Genome, d0: Daemon, env: TickEnv)
    requires PendingOk(g0.pending, d0.log, g0.committed) && DaemonOk(cfg, d0)
    ensures var r := Tick(cfg, g0, d0, g0.committed + 1, env);
            && PendingOk(r.g.pending, r.d.log, if CommitsSeq(r.outcome) then g0.committed + 1 else g0.committed)
            && DaemonOk(cfg, r.d)
  {
    hide HandleEvent;
    hide PollOne;
    hide Tick;
    hide PendingOk;
    hide DaemonOk;
    hide AgeOut;
    var seqNo := g0.committed + 1;
    AgedOk(g0, d0);
    HeadArrived(g0, d0);
    var d := TickIs(cfg, g0, d0, env);
    DaemonOkQuiet(cfg, d0, d);
    if env.poll.PollOk? && Head(g0, d0).Some? {
      var ev := Head(g0, d0).value;
      var r := HandleEvent(cfg, Aged(g0), d, seqNo, ev, env);
      HandleKeeps(cfg, Aged(g0), d, seqNo, ev, env, if CommitsSeq(r.outcome) then seqNo else g0.committed);
    }
  }

  lemma CommitKeeps(cfg: Codec, g: Genome, r: TickResult, bootFloor: nat)
    requires PendingOk(r.g.pending, r.d.log, if CommitsSeq(r.outcome) then g.committed + 1 else g.committed)
    requires DaemonOk(cfg, r.d)
    ensures Inv(cfg, World(Commit(g, r), r.d, bootFloor))
  {
  }

  /** A parked loop does nothing more. */
  lemma ParkedStep(cfg: Codec, w: World, env: TickEnv)
    requires w.g.parked
    ensures Step(cfg, w, Run(env)) == w
  {
    hide Tick;
  }

  lemma IterateKeeps(cfg: Codec, w: World, env: TickEnv)
    requires Inv(cfg, w)
    ensures Inv(cfg, Step(cfg, w, Run(env)))
  {
    hide Tick;
    if !w.g.parked {
      TickKeeps(cfg, w.g, w.d, env);
      CommitKeeps(cfg, w.g, Tick(cfg, w.g, w.d, w.g.committed + 1, env), w.bootFloor);
    }
  }

  lemma StepKeeps(cfg: Codec, w: World, input: Input)
    requires Inv(cfg, w)
    ensures Inv(cfg, Step(cfg, w, input))
  {
    match input
    case Run(env) => IterateKeeps(cfg, w, env);
    case Reboot =>
    case Arrive(ev, gap) =>
      var w' := Step(cfg, w, input);
      forall o | o in w'.d.log && o.Armed? ensures exists e :: Arms(cfg, w'.d, e, o) {
        var e :| Arms(cfg, w.d, e, o);
        assert Arms(cfg, w'.d, e, o);
      }
  }

  /** The invariant holds in every reachable world. */
  lemma {:induction false} ReachableInv(cfg: Codec, inputs: seq<Input>)
    ensures Inv(cfg, After(cfg, INITIAL_WORLD, inputs))
  {
    if inputs != [] {
      ReachableInv(cfg, inputs[..|inputs| - 1]);
      StepKeeps(cfg, After(cfg, INITIAL_WORLD, inputs[..|inputs| - 1]), inputs[|inputs| - 1]);
    }
  }
}
