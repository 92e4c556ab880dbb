/** Where the attested price comes from, in any run: every source is a feed that was asked and answered, at the price
    it gave, and there is no price without a quorum. */
module OracleQuotes {
  import opened Bytes
  import opened OracleModel
  import opened OracleSafety
  import opened Median

  /** The prices beside the sources. */
  function Quotes(sources: seq<Source>): seq<real> {
    seq(|sources|, i requires 0 <= i < |sources| => if sources[i].price.Some? then sources[i].price.value else 0.0)
  }

  /** Each feed is named at most once. */
  ghost predicate FeedsDistinct(sources: seq<Source>) {
    && (forall i :: 0 <= i < |sources| ==> sources[i].feed < FEED_COUNT)
    && (forall i, j :: 0 <= i < j < |sources| ==> sources[i].feed < sources[j].feed)
  }

  /** With at least two distinct sources, every source shows its price and the answer is their median; below
      that no price appears anywhere. */
  ghost predicate WellQuoted(a: Answer) {
    && FeedsDistinct(a.sources)
    && if |a.sources| >= 2
       then a.median == MedianPrice(Quotes(a.sources)) && forall i :: 0 <= i < |a.sources| ==> a.sources[i].price.Some?
       else a.median.None? && forall i :: 0 <= i < |a.sources| ==> a.sources[i].price.None?
  }

  // ---- What the feeds said ----

  /** The price that try `a` of `feed` brings in tick `n`: the feed's, when its answer gets through under a key not
      used before. */
  function Heard(used: set<Key>, n: nat, env: TickEnv, feed: nat, a: nat): Option<real> {
    var fate := env.fetch(feed, a);
    if fate.FetchReached? && !fate.lost && FetchKey(n, feed, a) !in used then fate.price else None
  }

  /** The first of two tries that brings a price. */
  function FeedPrice(used: set<Key>, n: nat, env: TickEnv, feed: nat): Option<real> {
    if Heard(used, n, env, feed, 0).Some? then Heard(used, n, env, feed, 0) else Heard(used, n, env, feed, 1)
  }

  /** `sources` names exactly those of the three feeds that gave a price, each once, in order. */
  ghost predicate NamesTheAnswering(used: set<Key>, n: nat, env: TickEnv, sources: seq<Source>) {
    && (forall i, j :: 0 <= i < j < |sources| ==> sources[i].feed < sources[j].feed)
    && (forall i :: 0 <= i < |sources| ==> sources[i].feed < 3 && FeedPrice(used, n, env, sources[i].feed).Some?)
    && (forall f: nat :: f < 3 && FeedPrice(used, n, env, f).Some? ==>
          exists i :: 0 <= i < |sources| && sources[i].feed == f)
  }

  /** `a` is what the feeds said in tick `n`: at two sources or more each shows the price it gave. */
  ghost predicate ToldBy(used: set<Key>, n: nat, env: TickEnv, a: Answer) {
    && NamesTheAnswering(used, n, env, a.sources)
    && (forall i :: 0 <= i < |a.sources| ==>
          a.sources[i].price == if |a.sources| >= 2 then FeedPrice(used, n, env, a.sources[i].feed) else None)
    && a.fetchedAt == env.now
  }

  // ---- One answer ----

  ghost predicate Ascending(answered: seq<(nat, real)>, feed: nat) {
    && (forall i :: 0 <= i < |answered| ==> answered[i].0 < feed)
    && (forall i, j :: 0 <= i < j < |answered| ==> answered[i].0 < answered[j].0)
  }

  /** `answered` lists the feeds below `feed` that gave a price, with it. */
  ghost predicate Collected(used: set<Key>, n: nat, env: TickEnv, answered: seq<(nat, real)>, feed: nat) {
    && Ascending(answered, feed)
    && (forall i :: 0 <= i < |answered| ==> FeedPrice(used, n, env, answered[i].0) == Some(answered[i].1))
    && (forall f: nat :: f < feed && FeedPrice(used, n, env, f).Some? ==>
          exists i :: 0 <= i < |answered| && answered[i].0 == f)
  }

  /** No key of `feed` or a later one has been used since `used`. */
  ghost predicate Unasked(used: set<Key>, n: nat, d: Daemon, feed: nat) {
    forall f: nat, a: nat :: f >= feed ==> (FetchKey(n, f, a) in d.recorded <==> FetchKey(n, f, a) in used)
  }

  lemma TriesGive(used: set<Key>, d: Daemon, n: nat, feed: nat, env: TickEnv)
    requires Unasked(used, n, d, feed)
    ensures var (d', price) := TryFeed(d, n, feed, 0, env);
            price == FeedPrice(used, n, env, feed) && Unasked(used, n, d', feed + 1)
  {
    var (d1, p1) := Fetch(d, n, feed, 0, env.fetch(feed, 0));
    var (d2, p2) := Fetch(d1, n, feed, 1, env.fetch(feed, 1));
    assert TryFeed(d2, n, feed, 2, env) == (d2, None);
    assert TryFeed(d1, n, feed, 1, env) == (d2, p2);
    assert FetchKey(n, feed, 1) in d1.recorded <==> FetchKey(n, feed, 1) in used;
    assert Unasked(used, n, d1, feed + 1) && Unasked(used, n, d2, feed + 1);
    assert TryFeed(d, n, feed, 0, env) == if p1.Some? then (d1, p1) else (d2, p2);
  }

  lemma {:induction false} GatherCollects(used: set<Key>, d: Daemon, n: nat, feed: nat, env: TickEnv,
        answered: seq<(nat, real)>)
    requires feed <= FEED_COUNT && Unasked(used, n, d, feed) && Collected(used, n, env, answered, feed)
    ensures Collected(used, n, env, Gather(d, n, feed, env, answered).1, FEED_COUNT)
    decreases FEED_COUNT - feed
  {
    if feed < FEED_COUNT {
      TriesGive(used, d, n, feed, env);
      var (d', price) := TryFeed(d, n, feed, 0, env);
      var more := if price.Some? then answered + [(feed, price.value)] else answered;
      hide TryFeed;
      CollectsOne(used, n, env, answered, feed);
      hide FeedPrice;
      hide Collected;
      GatherCollects(used, d', n, feed + 1, env, more);
    }
  }

  lemma CollectsOne(used: set<Key>, n: nat, env: TickEnv, answered: seq<(nat, real)>, feed: nat)
    requires Collected(used, n, env, answered, feed)
    ensures var price := FeedPrice(used, n, env, feed);
            var more := if price.Some? then answered + [(feed, price.value)] else answered;
            Collected(used, n, env, more, feed + 1)
  {
    hide FeedPrice;
    var price := FeedPrice(used, n, env, feed);
    if price.Some? {
      var more := answered + [(feed, price.value)];
      assert more[|answered|].0 == feed;
      forall f: nat | f < feed + 1 && FeedPrice(used, n, env, f).Some?
        ensures exists i :: 0 <= i < |more| && more[i].0 == f
      {
        if f < feed {
          var i :| 0 <= i < |answered| && answered[i].0 == f;
          assert more[i].0 == f;
        }
      }
    }
  }

  lemma AssembleQuotes(cfg: Codec, answered: seq<(nat, real)>, chargeId: Str, now: nat)
    requires cfg.median == MedianPrice && Ascending(answered, FEED_COUNT)
    ensures WellQuoted(Assemble(cfg, answered, chargeId, now))
  {
    hide MedianPrice;
    var a := Assemble(cfg, answered, chargeId, now);
    if |answered| >= 2 {
      assert Quotes(a.sources) == Prices(answered);
    }
  }

  lemma AssembleTells(cfg: Codec, used: set<Key>, n: nat, env: TickEnv, answered: seq<(nat, real)>, chargeId: Str)
    requires Collected(used, n, env, answered, 3)
    ensures ToldBy(used, n, env, Assemble(cfg, answered, chargeId, env.now))
  {
    hide FeedPrice;
    var a := Assemble(cfg, answered, chargeId, env.now);
    forall f: nat | f < 3 && FeedPrice(used, n, env, f).Some?
      ensures exists i :: 0 <= i < |a.sources| && a.sources[i].feed == f
    {
      var i :| 0 <= i < |answered| && answered[i].0 == f;
      assert a.sources[i].feed == f;
    }
  }

  /** The attestation a tick builds: its sources are exactly the feeds, of the three, one of whose two tries under its
      own unused key brought a price; at quorum each shows the first price it brought, below it none shows any. */
  lemma BuildTells(cfg: Codec, d: Daemon, n: nat, chargeId: Str, env: TickEnv)
    ensures ToldBy(d.recorded, n, env, BuildAnswer(cfg, d, n, chargeId, env).1)
  {
    GatherCollects(d.recorded, d, n, 0, env, []);
    hide Gather;
    hide Collected;
    AssembleTells(cfg, d.recorded, n, env, Gather(d, n, 0, env, []).1, chargeId);
    hide ToldBy;
    hide Assemble;
  }

  lemma BuildQuotes(cfg: Codec, d: Daemon, seqNo: nat, chargeId: Str, env: TickEnv)
    requires cfg.median == MedianPrice
    ensures WellQuoted(BuildAnswer(cfg, d, seqNo, chargeId, env).1)
  {
    GatherCollects(d.recorded, d, seqNo, 0, env, []);
    hide Gather;
    AssembleQuotes(cfg, Gather(d, seqNo, 0, env, []).1, chargeId, env.now);
    hide WellQuoted;
    hide Assemble;
  }

  // ---- Every step ----

  ghost predicate CachesQuoted(cfg: Codec, pending: map<Str, PendingCharge>, run: seq<Input>) {
    forall c :: c in pending && pending[c].answer.Some? ==> Sourced(cfg, run, pending[c].answer.value)
  }

  ghost predicate LogQuoted(cfg: Codec, log: seq<Obs>, run: seq<Input>) {
    forall o :: o in log && IsAttestation(o) ==> Sourced(cfg, run, o.text.answer)
  }

  ghost predicate SourcedBuild(cfg: Codec, d: Daemon, c: Str, w: World, env: TickEnv, run: seq<Input>) {
    d.recorded == w.d.recorded && Polls(cfg, w, env, c) ==>
      Sourced(cfg, run, BuildAnswer(cfg, d, w.g.committed + 1, c, env).1)
  }

  /** Whatever the tick builds is sourced in `run`. */
  ghost predicate Builds(cfg: Codec, w: World, env: TickEnv, run: seq<Input>) {
    forall d: Daemon, c: Str :: SourcedBuild(cfg, d, c, w, env, run)
  }

  /** The tick polls a settlement of the waiting charge `c`. */
  ghost predicate Polls(cfg: Codec, w: World, env: TickEnv, c: Str) {
    env.poll.PollOk? && Head(w.g, w.d).Some? && Settles(cfg, Head(w.g, w.d).value, c, Aged(w.g).pending)
  }

  lemma LogGrowsQuoted(cfg: Codec, log: seq<Obs>, o: Obs, run: seq<Input>)
    requires LogQuoted(cfg, log, run) && (IsAttestation(o) ==> Sourced(cfg, run, o.text.answer))
    ensures LogQuoted(cfg, log + [o], run)
  {
  }

  lemma CacheGrowsQuoted(cfg: Codec, pending: map<Str, PendingCharge>, c: Str, pc: PendingCharge, run: seq<Input>)
    requires CachesQuoted(cfg, pending, run) && (pc.answer.Some? ==> Sourced(cfg, run, pc.answer.value))
    ensures CachesQuoted(cfg, pending[c := pc], run) && CachesQuoted(cfg, pending[c := pc] - {c}, run)
  {
  }

  lemma SettleQuotes(cfg: Codec, g: Genome, d: Daemon, seqNo: nat, ev: Event, env: TickEnv, run: seq<Input>)
    requires ev.kind == PaymentSettled && CachesQuoted(cfg, g.pending, run) && LogQuoted(cfg, d.log, run)
    requires forall c: Str :: Settles(cfg, ev, c, g.pending) ==>
               Sourced(cfg, run, BuildAnswer(cfg, d, seqNo, c, env).1)
    ensures var r := SettleTick(cfg, g, d, seqNo, ev, env);
            CachesQuoted(cfg, r.g.pending, run) && LogQuoted(cfg, r.d.log, run)
  {
    hide Sourced;
    if SettledCharge(cfg, ev).Some? && Settles(cfg, ev, SettledCharge(cfg, ev).value, g.pending) {
      var c := SettledCharge(cfg, ev).value;
      var a := SettledAnswer(cfg, g, d, seqNo, ev, c, env);
      hide SettleTick;
      hide BuildAnswer;
      hide Settles;
      var pc := g.pending[c];
      LogGrowsQuoted(cfg, d.log, Delivered(seqNo, pc.sender, Attestation(a)), run);
      CacheGrowsQuoted(cfg, g.pending, c, pc.(answer := Some(a)), run);
      assert g.pending[c := pc.(answer := Some(a))] - {c} == g.pending - {c};
      hide CachesQuoted;
      hide LogQuoted;
    } else {
      UnsettledShape(cfg, g, d, seqNo, ev, env);
      hide SettleTick;
    }
  }

  /** The answer a settlement of `c` sends is the one in hand, or else the one it builds. */
  lemma SettledAnswer(cfg: Codec, g: Genome, d: Daemon, seqNo: nat, ev: Event, c: Str, env: TickEnv) returns (a: Answer)
    requires Settles(cfg, ev, c, g.pending)
    ensures a == if g.pending[c].answer.Some? then g.pending[c].answer.value else BuildAnswer(cfg, d, seqNo, c, env).1
    ensures var r := SettleTick(cfg, g, d, seqNo, ev, env);
            && (r.d.log == d.log || r.d.log == d.log + [Delivered(seqNo, g.pending[c].sender, Attestation(a))])
            && (r.g.pending == g.pending[c := g.pending[c].(answer := Some(a))] || r.g.pending == g.pending - {c})
  {
    var pc := g.pending[c];
    BuildAnswerShape(cfg, d, seqNo, c, env);
    hide BuildAnswer;
    var (d1, answer) := if pc.answer.Some? then (d, pc.answer.value) else BuildAnswer(cfg, d, seqNo, c, env);
    a := answer;
    SendShape(d1, seqNo, pc.sender, Attestation(a), env.dm);
    hide SendDm;
    assert g.pending[c := pc.(answer := Some(a))] - {c} == g.pending - {c};
  }

  lemma PriceQuotes(cfg: Codec, g: Genome, d: Daemon, seqNo: nat, ev: Event, request: Request, env: TickEnv,
        run: seq<Input>)
    requires IdsDistinct(d.charges) && CachesQuoted(cfg, g.pending, run) && LogQuoted(cfg, d.log, run)
    ensures var r := PriceTick(cfg, g, d, seqNo, ev, request, env);
            CachesQuoted(cfg, r.g.pending, run) && LogQuoted(cfg, r.d.log, run)
  {
    hide PriceTick;
    hide Sourced;
    var c, amount, pc := PriceShape(cfg, g, d, seqNo, ev, request, env);
  }

  lemma HandleQuotes(cfg: Codec, g: Genome, d: Daemon, seqNo: nat, ev: Event, env: TickEnv, run: seq<Input>)
    requires IdsDistinct(d.charges) && CachesQuoted(cfg, g.pending, run) && LogQuoted(cfg, d.log, run)
    requires forall c: Str :: Settles(cfg, ev, c, g.pending) ==>
               Sourced(cfg, run, BuildAnswer(cfg, d, seqNo, c, env).1)
    ensures var r := HandleEvent(cfg, g, d, seqNo, ev, env);
            CachesQuoted(cfg, r.g.pending, run) && LogQuoted(cfg, r.d.log, run)
  {
    hide SettleTick;
    hide PriceTick;
    hide BuildAnswer;
    hide Sourced;
    hide Settles;
    if ev.kind == PaymentSettled {
      SettleQuotes(cfg, g, d, seqNo, ev, env, run);
    } else {
      match cfg.classify(ev.payload)
      case Status => SendShape(d.(asked := d.asked + [AskContext]), seqNo, ev.sourcePubkey, Books, env.dm);
      case Unsupported =>
      case Price(_, _) => PriceQuotes(cfg, g, d, seqNo, ev, cfg.classify(ev.payload), env, run);
    }
  }

  lemma AgedQuotes(cfg: Codec, g: Genome, run: seq<Input>)
    requires CachesQuoted(cfg, g.pending, run)
    ensures CachesQuoted(cfg, Aged(g).pending, run)
  {
  }

  lemma BuildsFor(cfg: Codec, w: World, d: Daemon, env: TickEnv, run: seq<Input>)
    requires Builds(cfg, w, env, run) && d.recorded == w.d.recorded && env.poll.PollOk? && Head(w.g, w.d).Some?
    ensures var n := w.g.committed + 1;
            forall c: Str :: Settles(cfg, Head(w.g, w.d).value, c, Aged(w.g).pending) ==>
              Sourced(cfg, run, BuildAnswer(cfg, d, n, c, env).1)
  {
    hide Sourced;
    hide BuildAnswer;
    hide PollOne;
    hide Settles;
    hide AgeOut;
    var n := w.g.committed + 1;
    forall c: Str | Settles(cfg, Head(w.g, w.d).value, c, Aged(w.g).pending)
      ensures Sourced(cfg, run, BuildAnswer(cfg, d, n, c, env).1)
    {
      assert SourcedBuild(cfg, d, c, w, env, run);
    }
  }

  lemma StepQuotes(cfg: Codec, w: World, input: Input, run: seq<Input>)
    requires Inv(cfg, w) && CachesQuoted(cfg, w.g.pending, run) && LogQuoted(cfg, w.d.log, run)
    requires input.Run? ==> Builds(cfg, w, input.env, run)
    ensures var w' := Step(cfg, w, input); CachesQuoted(cfg, w'.g.pending, run) && LogQuoted(cfg, w'.d.log, run)
  {
    hide Tick;
    hide PollOne;
    hide HandleEvent;
    hide AgeOut;
    hide Builds;
    if input.Run? && !w.g.parked {
      AgedQuotes(cfg, w.g, run);
      var d := TickIs(cfg, w.g, w.d, input.env);
      if input.env.poll.PollOk? && Head(w.g, w.d).Some? {
        BuildsFor(cfg, w, d, input.env, run);
        hide Sourced;
        hide BuildAnswer;
        HandleQuotes(cfg, Aged(w.g), d, w.g.committed + 1, Head(w.g, w.d).value, input.env, run);
      }
    }
  }

  /** Input `j` of the run is a tick that polls a settlement of the charge of `a`, and in which the feeds said `a`. */
  ghost predicate ToldAt(cfg: Codec, inputs: seq<Input>, j: nat, a: Answer) {
    && j < |inputs| && inputs[j].Run?
    && var w := After(cfg, INITIAL_WORLD, inputs[..j]);
    && Polls(cfg, w, inputs[j].env, a.chargeId) && ToldBy(w.d.recorded, w.g.committed + 1, inputs[j].env, a)
  }

  ghost predicate Sourced(cfg: Codec, inputs: seq<Input>, a: Answer) {
    WellQuoted(a) && exists j: nat :: ToldAt(cfg, inputs, j, a)
  }

  lemma SourcedGrows(cfg: Codec, inputs: seq<Input>, n: nat, a: Answer)
    requires n <= |inputs| && Sourced(cfg, inputs[..n], a)
    ensures Sourced(cfg, inputs, a)
  {
    hide WellQuoted;
    hide ToldBy;
    hide After;
    hide Polls;
    var j: nat :| ToldAt(cfg, inputs[..n], j, a);
    assert inputs[..n][..j] == inputs[..j];
    assert ToldAt(cfg, inputs, j, a);
  }

  /** Every answer in hand or delivered is sourced. */
  ghost predicate AllSourced(cfg: Codec, inputs: seq<Input>, w: World) {
    CachesQuoted(cfg, w.g.pending, inputs) && LogQuoted(cfg, w.d.log, inputs)
  }

  lemma {:induction false} ReachableQuotes(cfg: Codec, inputs: seq<Input>)
    requires cfg.median == MedianPrice
    ensures AllSourced(cfg, inputs, After(cfg, INITIAL_WORLD, inputs))
  {
    hide *;
    if inputs == [] {
      NothingSourced(cfg);
    } else {
      var front, last := inputs[..|inputs| - 1], inputs[|inputs| - 1];
      ReachableQuotes(cfg, front);
      ReachableInv(cfg, front);
      AllSourcedGrows(cfg, inputs, After(cfg, INITIAL_WORLD, front));
      if last.Run? {
        BuildsSourced(cfg, inputs);
      }
      StepSourced(cfg, inputs, After(cfg, INITIAL_WORLD, front), last);
      LastStep(cfg, inputs);
    }
  }

  lemma LastStep(cfg: Codec, inputs: seq<Input>)
    requires inputs != []
    ensures After(cfg, INITIAL_WORLD, inputs) ==
              Step(cfg, After(cfg, INITIAL_WORLD, inputs[..|inputs| - 1]), inputs[|inputs| - 1])
  {
    hide Step;
  }

  lemma NothingSourced(cfg: Codec)
    ensures AllSourced(cfg, [], After(cfg, INITIAL_WORLD, []))
  {
  }

  lemma AllSourcedGrows(cfg: Codec, inputs: seq<Input>, w: World)
    requires inputs != [] && AllSourced(cfg, inputs[..|inputs| - 1], w)
    ensures AllSourced(cfg, inputs, w)
  {
    var n := |inputs| - 1;
    forall a | Sourced(cfg, inputs[..n], a) ensures Sourced(cfg, inputs, a) {
      SourcedGrows(cfg, inputs, n, a);
    }
    hide Sourced;
  }

  lemma StepSourced(cfg: Codec, run: seq<Input>, w: World, input: Input)
    requires Inv(cfg, w) && AllSourced(cfg, run, w)
    requires input.Run? ==> Builds(cfg, w, input.env, run)
    ensures AllSourced(cfg, run, Step(cfg, w, input))
  {
    hide Inv;
    hide Builds;
    hide CachesQuoted;
    hide LogQuoted;
    hide Step;
    StepQuotes(cfg, w, input, run);
  }

  lemma BuildsSourced(cfg: Codec, inputs: seq<Input>)
    requires cfg.median == MedianPrice && inputs != [] && inputs[|inputs| - 1].Run?
    ensures var w := After(cfg, INITIAL_WORLD, inputs[..|inputs| - 1]);
            Builds(cfg, w, inputs[|inputs| - 1].env, inputs)
  {
    hide *;
    var w, env := After(cfg, INITIAL_WORLD, inputs[..|inputs| - 1]), inputs[|inputs| - 1].env;
    forall d: Daemon, c: Str ensures SourcedBuild(cfg, d, c, w, env, inputs) {
      IsSourcedBuild(cfg, inputs, d, c);
    }
    AllBuilds(cfg, w, env, inputs);
  }

  lemma IsSourcedBuild(cfg: Codec, inputs: seq<Input>, d: Daemon, c: Str)
    requires cfg.median == MedianPrice && inputs != [] && inputs[|inputs| - 1].Run?
    ensures var w := After(cfg, INITIAL_WORLD, inputs[..|inputs| - 1]);
            SourcedBuild(cfg, d, c, w, inputs[|inputs| - 1].env, inputs)
  {
    hide After;
    hide BuildAnswer;
    hide Sourced;
    hide Polls;
    var w := After(cfg, INITIAL_WORLD, inputs[..|inputs| - 1]);
    if d.recorded == w.d.recorded && Polls(cfg, w, inputs[|inputs| - 1].env, c) {
      BuildSourced(cfg, inputs, d, c);
    }
  }

  lemma AllBuilds(cfg: Codec, w: World, env: TickEnv, run: seq<Input>)
    requires forall d: Daemon, c: Str :: SourcedBuild(cfg, d, c, w, env, run)
    ensures Builds(cfg, w, env, run)
  {
    hide SourcedBuild;
  }

  lemma BuildSourced(cfg: Codec, inputs: seq<Input>, d: Daemon, c: Str)
    requires cfg.median == MedianPrice && inputs != [] && inputs[|inputs| - 1].Run?
    requires d.recorded == After(cfg, INITIAL_WORLD, inputs[..|inputs| - 1]).d.recorded
    requires Polls(cfg, After(cfg, INITIAL_WORLD, inputs[..|inputs| - 1]), inputs[|inputs| - 1].env, c)
    ensures var w := After(cfg, INITIAL_WORLD, inputs[..|inputs| - 1]);
            Sourced(cfg, inputs, BuildAnswer(cfg, d, w.g.committed + 1, c, inputs[|inputs| - 1].env).1)
  {
    hide After;
    hide WellQuoted;
    hide ToldBy;
    hide BuildAnswer;
    hide Polls;
    var n := |inputs| - 1;
    var w, env := After(cfg, INITIAL_WORLD, inputs[..n]), inputs[n].env;
    BuildQuotes(cfg, d, w.g.committed + 1, c, env);
    BuildTells(cfg, d, w.g.committed + 1, c, env);
    BuildAnswerShape(cfg, d, w.g.committed + 1, c, env);
    assert ToldAt(cfg, inputs, n, BuildAnswer(cfg, d, w.g.committed + 1, c, env).1);
  }

  lemma LogSourced(cfg: Codec, inputs: seq<Input>, w: World, i: nat)
    requires AllSourced(cfg, inputs, w) && i < |w.d.log| && IsAttestation(w.d.log[i])
    ensures Sourced(cfg, inputs, w.d.log[i].text.answer)
  {
    hide Sourced;
    assert w.d.log[i] in w.d.log;
  }

  // ---- Main results ----

  /** In every run, every delivered attestation says what the feeds said in a tick that polled a settlement of its
      charge: its sources are exactly the feeds whose tries, under keys not used before that tick, brought a price,
      and at two sources or more each shows the price it brought. */
  lemma AttestsWhatFeedsSaid(cfg: Codec, inputs: seq<Input>, i: nat) returns (j: nat)
    requires cfg.median == MedianPrice
    requires i < |After(cfg, INITIAL_WORLD, inputs).d.log| && IsAttestation(After(cfg, INITIAL_WORLD, inputs).d.log[i])
    ensures j < |inputs| && inputs[j].Run?
    ensures var a := After(cfg, INITIAL_WORLD, inputs).d.log[i].text.answer;
            var w := After(cfg, INITIAL_WORLD, inputs[..j]);
            && Polls(cfg, w, inputs[j].env, a.chargeId)
            && ToldBy(w.d.recorded, w.g.committed + 1, inputs[j].env, a)
  {
    hide After;
    hide ToldBy;
    hide Polls;
    hide WellQuoted;
    hide AllSourced;
    ReachableQuotes(cfg, inputs);
    LogSourced(cfg, inputs, After(cfg, INITIAL_WORLD, inputs), i);
    var a := After(cfg, INITIAL_WORLD, inputs).d.log[i].text.answer;
    j :| ToldAt(cfg, inputs, j, a);
  }

  /** In every run, a delivered attestation shows a price, in its answer or beside a source, exactly when at
      least two distinct feeds answered; then every one of them shows its price, and at most half of them lie
      strictly below the attested price and at most half strictly above. */
  lemma EveryQuoteHasAQuorum(cfg: Codec, inputs: seq<Input>, i: nat)
    requires cfg.median == MedianPrice
    requires i < |After(cfg, INITIAL_WORLD, inputs).d.log| && IsAttestation(After(cfg, INITIAL_WORLD, inputs).d.log[i])
    ensures var a := After(cfg, INITIAL_WORLD, inputs).d.log[i].text.answer;
            && FeedsDistinct(a.sources)
            && (a.median.Some? <==> |a.sources| >= 2)
            && (forall k :: 0 <= k < |a.sources| ==> (a.sources[k].price.Some? <==> |a.sources| >= 2))
            && (a.median.Some? ==>
                  && 2 * Count(Quotes(a.sources), Below(a.median.value)) <= |a.sources|
                  && 2 * Count(Quotes(a.sources), Above(a.median.value)) <= |a.sources|)
  {
    hide After;
    hide ToldAt;
    hide AllSourced;
    ReachableQuotes(cfg, inputs);
    LogSourced(cfg, inputs, After(cfg, INITIAL_WORLD, inputs), i);
    var a := After(cfg, INITIAL_WORLD, inputs).d.log[i].text.answer;
    assert WellQuoted(a);
    if |a.sources| >= 2 {
      MedianSplits(Quotes(a.sources));
    }
    hide MedianPrice;
    hide Count;
  }
}
