/** What holds of every run of the private-message arm, whatever the brain replies. */
module DmTheorems {
  import opened Bytes
  import opened DmModel

  // ---- The invariant ----

  /** A delivery for a conversation not yet settled was made at the current tick number. */
  ghost predicate DeliveryOk(p: Params, g: Genome, d: Daemon, e: Sent) {
    && e.seqNo in d.sends && d.sends[e.seqNo]
    && ((e.inReplyTo <= g.dmAck && e.seqNo <= g.committed) ||
        (g.busy.Some? && e.inReplyTo == g.busy.value.inboxSeq && e.seqNo == g.committed + 1))
  }

  /** `e` answers the message it is filed against, to the one who sent it. */
  ghost predicate RightRecipient(d: Daemon, e: Sent) {
    exists m :: m in d.arrived && m.inboxSeq == e.inReplyTo && m.sender == e.to
  }

  /** Every burned key carries the reply its think decided. */
  ghost predicate KeysOk(p: Params, d: Daemon) {
    forall k :: k in d.sends ==> k in d.thinks && p.parse(d.thinks[k]).DmReply?
  }

  ghost predicate BusyOk(p: Params, g: Genome, d: Daemon) {
    g.busy.Some? ==>
      var conv := g.busy.value;
      && conv.inboxSeq > g.dmAck && conv.readsUsed <= p.maxReads
      && Message(conv.inboxSeq, conv.sender, conv.message) in d.arrived
  }

  ghost predicate Inv(p: Params, g: Genome, d: Daemon) {
    && BusyOk(p, g, d) && KeysOk(p, d)
    && (forall e :: e in d.log ==> DeliveryOk(p, g, d, e) && RightRecipient(d, e))
    && (forall i, j :: 0 <= i < j < |d.log| ==> d.log[i].inReplyTo != d.log[j].inReplyTo)
  }

  // ---- What one busy tick does ----

  /** A think at a performed key re-serves its completion, so a send key and its think agree. */
  lemma ThinkShape(d: Daemon, seqNo: nat, turns: seq<Turn>, fate: ThinkFate)
    ensures var (d', r) := Think(d, seqNo, turns, fate);
            && d'.sends == d.sends && d'.log == d.log && d'.arrived == d.arrived
            && d'.asked == d.asked + [AskThink(seqNo, turns)]
            && (forall k :: k in d.thinks ==> k in d'.thinks && d'.thinks[k] == d.thinks[k])
            && (r.Thought? ==> seqNo in d'.thinks && d'.thinks[seqNo] == r.reply)
            && (r.ThinkDenied? ==> seqNo !in d.thinks)
  {
  }

  lemma SendShape(d: Daemon, seqNo: nat, to: Str, text: Str, inReplyTo: nat, fate: SendFate)
    ensures var (d', r) := Send(d, seqNo, to, text, inReplyTo, fate);
            && d'.arrived == d.arrived && d'.thinks == d.thinks && d'.asked == d.asked + [AskDm(seqNo, to, text)]
            && LogGrows(d, seqNo, to, inReplyTo, d') && SendsGrow(d, seqNo, d')
            && (r.SendDone? && r.recordedWrite ==> seqNo in d'.sends)
  {
    var (d', r) := Send(d, seqNo, to, text, inReplyTo, fate);
    assert d'.log == d.log || d'.log == d.log + [Sent(seqNo, to, text, inReplyTo)];
  }

  ghost predicate SendsGrow(d: Daemon, seqNo: nat, d': Daemon) {
    && (forall k :: k in d.sends ==> k in d'.sends && d'.sends[k] == d.sends[k])
    && (forall k :: k in d'.sends && k != seqNo ==> k in d.sends)
  }

  /** The log gains at most one delivery, to `to`, under a key that was free. */
  ghost predicate LogGrows(d: Daemon, seqNo: nat, to: Str, inReplyTo: nat, d': Daemon) {
    || d'.log == d.log
    || (exists text :: && d'.log == d.log + [Sent(seqNo, to, text, inReplyTo)]
                       && seqNo !in d.sends && seqNo in d'.sends && d'.sends[seqNo])
  }

  /** What a busy tick leaves: the ledgers grow consistently, and a burned key rules out every outcome
      but a reply or a retry. */
  ghost predicate BusyShape(p: Params, d: Daemon, seqNo: nat, conv: Conversation, d': Daemon, o: Outcome) {
    && d'.arrived == d.arrived && KeysOk(p, d')
    && SendsGrow(d, seqNo, d') && LogGrows(d, seqNo, conv.sender, conv.inboxSeq, d')
    && (seqNo in d'.sends ==> o.Transient? || (o.Lived? && o.action.DmReply?))
    && (o.Widened? ==> conv.readsUsed < p.maxReads)
  }

  lemma ReplyShape(p: Params, d: Daemon, seqNo: nat, conv: Conversation, h: History, env: TickEnv)
    requires KeysOk(p, d)
    ensures var (d', o) := ReplyTick(p, d, seqNo, conv, h, env); BusyShape(p, d, seqNo, conv, d', o)
  {
    hide LastN;
    hide Ring;
    var d0 := d.(asked := d.asked + [AskRead(seqNo)]);
    var turns := LastN(Ring(h, conv.sender), if conv.readsUsed == 0 then p.historyWindow else p.historyMax);
    ThinkShape(d0, seqNo, turns, env.think);
    var (d1, thought) := Think(d0, seqNo, turns, env.think);
    hide Think;
    if thought.Thought? && p.parse(thought.reply).DmReply? {
      SendShape(d1, seqNo, conv.sender, p.parse(thought.reply).text, conv.inboxSeq, env.send);
    }
    hide Send;
  }

  /** The ordinary tick touches no message ledger. */
  lemma OrdinaryShape(p: Params, d: Daemon, seqNo: nat, env: TickEnv)
    requires KeysOk(p, d)
    ensures var (d', o) := OrdinaryTick(p, d, seqNo, env);
            d'.arrived == d.arrived && d'.sends == d.sends && d'.log == d.log && KeysOk(p, d') && !o.Widened?
  {
    ThinkShape(d.(asked := d.asked + [AskRead(seqNo)]), seqNo, [], env.think);
    hide Think;
  }

  lemma ReplyArrived(p: Params, d: Daemon, n: nat, conv: Conversation, h: History, env: TickEnv)
    ensures ReplyTick(p, d, n, conv, h, env).0.arrived == d.arrived
  {
    hide LastN;
    hide Ring;
  }

  lemma OrdinaryArrived(p: Params, d: Daemon, n: nat, env: TickEnv)
    ensures OrdinaryTick(p, d, n, env).0.arrived == d.arrived
  {
  }

  lemma TakenOk(p: Params, g: Genome, d: Daemon, env: TickEnv)
    requires BusyOk(p, g, d)
    ensures var taken := TakeConversation(g, d, env);
            taken.Some? ==>
              && taken.value.inboxSeq > g.dmAck && taken.value.readsUsed <= p.maxReads
              && Message(taken.value.inboxSeq, taken.value.sender, taken.value.message) in d.arrived
              && (g.busy.Some? ==> taken == g.busy)
  {
  }

  lemma BusyTickKeeps(p: Params, g: Genome, d: Daemon, conv: Conversation, d': Daemon, o: Outcome, g': Genome)
    requires Inv(p, g, d) && !g.parked
    requires conv.inboxSeq > g.dmAck && conv.readsUsed <= p.maxReads
    requires Message(conv.inboxSeq, conv.sender, conv.message) in d.arrived && (g.busy.Some? ==> g.busy == Some(conv))
    requires BusyShape(p, d, g.committed + 1, conv, d', o)
    requires g'.committed == (if o.Transient? then g.committed else g.committed + 1)
    requires g'.dmAck == (if o.Lived? then conv.inboxSeq else g.dmAck)
    requires g'.busy ==
             (if o.Lived? then None else Some(if o.Widened? then conv.(readsUsed := conv.readsUsed + 1) else conv))
    ensures Inv(p, g', d')
  {
    var seqNo := g.committed + 1;
    forall e | e in d'.log ensures DeliveryOk(p, g', d', e) && RightRecipient(d', e) {
      if e in d.log {
        assert DeliveryOk(p, g, d, e) && RightRecipient(d, e);
        var m :| m in d.arrived && m.inboxSeq == e.inReplyTo && m.sender == e.to;
        assert m in d'.arrived;
      } else {
        assert Message(conv.inboxSeq, conv.sender, conv.message) in d'.arrived;
      }
    }
    forall i, j | 0 <= i < j < |d'.log| ensures d'.log[i].inReplyTo != d'.log[j].inReplyTo {
      if j == |d.log| {
        assert d.log[i] in d.log;
      }
    }
  }

  lemma OrdinaryTickKeeps(p: Params, g: Genome, d: Daemon, d': Daemon, g': Genome)
    requires Inv(p, g, d) && g.busy.None?
    requires d'.arrived == d.arrived && d'.sends == d.sends && d'.log == d.log && KeysOk(p, d')
    requires g'.busy.None? && g'.dmAck == g.dmAck && g'.committed >= g.committed
    ensures Inv(p, g', d')
  {
    forall e | e in d'.log ensures DeliveryOk(p, g', d', e) && RightRecipient(d', e) {
      assert DeliveryOk(p, g, d, e) && RightRecipient(d, e);
    }
  }

  /** One turn of the loop, by whether it has a conversation. */
  lemma IterateIs(p: Params, g: Genome, d: Daemon, env: TickEnv)
    requires !g.parked
    ensures var seqNo := g.committed + 1;
            var taken := TakeConversation(g, d, env);
            var (g', d') := Iterate(p, g, d, env);
            if taken.Some? then
              var (d1, o) := ReplyTick(p, d, seqNo, taken.value, g.history, env);
              && d' == d1 && g'.parked == o.Dead?
              && g'.committed == (if o.Transient? then g.committed else seqNo)
              && g'.dmAck == (if o.Lived? then taken.value.inboxSeq else g.dmAck)
              && g'.busy == (if o.Lived? then None
                             else Some(if o.Widened? then taken.value.(readsUsed := taken.value.readsUsed + 1)
                                  else taken.value))
            else
              var (d1, o) := OrdinaryTick(p, d, seqNo, env);
              d' == d1 && g' == g.(committed := if o.Transient? then g.committed else seqNo, parked := o.Dead?)
  {
    hide ReplyTick;
    hide OrdinaryTick;
    hide TakeConversation;
    hide Record;
  }

  lemma IterateKeeps(p: Params, g: Genome, d: Daemon, env: TickEnv)
    requires Inv(p, g, d)
    ensures var (g', d') := Iterate(p, g, d, env); Inv(p, g', d')
  {
    if !g.parked {
      assert BusyOk(p, g, d) && KeysOk(p, d);
      hide *;
      IterateIs(p, g, d, env);
      if TakeConversation(g, d, env).Some? {
        BusyIterateKeeps(p, g, d, env);
      } else {
        OrdinaryShape(p, d, g.committed + 1, env);
        NotTakenIsIdle(g, d, env);
        var (g', d') := Iterate(p, g, d, env);
        OrdinaryTickKeeps(p, g, d, d', g');
      }
    }
  }

  lemma BusyIterateKeeps(p: Params, g: Genome, d: Daemon, env: TickEnv)
    requires Inv(p, g, d) && !g.parked && TakeConversation(g, d, env).Some?
    ensures var (g', d') := Iterate(p, g, d, env); Inv(p, g', d')
  {
    assert BusyOk(p, g, d) && KeysOk(p, d);
    hide *;
    var conv := TakeConversation(g, d, env).value;
    TakenOk(p, g, d, env);
    IterateIs(p, g, d, env);
    ReplyShape(p, d, g.committed + 1, conv, g.history, env);
    var (g', d') := Iterate(p, g, d, env);
    var o := ReplyTick(p, d, g.committed + 1, conv, g.history, env).1;
    BusyTickKeeps(p, g, d, conv, d', o, g');
  }

  lemma NotTakenIsIdle(g: Genome, d: Daemon, env: TickEnv)
    requires TakeConversation(g, d, env).None?
    ensures g.busy.None?
  {
  }

  lemma {:induction false} ReachableInv(p: Params, inputs: seq<Input>)
    ensures var (g, d) := After(p, inputs); Inv(p, g, d)
  {
    hide Iterate;
    if inputs != [] {
      var n := |inputs| - 1;
      ReachableInv(p, inputs[..n]);
      var (g, d) := After(p, inputs[..n]);
      match inputs[n]
      case Run(env) => IterateKeeps(p, g, d, env);
      case Arrive(sender, text) => ArrivalKeeps(p, g, d, sender, text);
    }
  }

  lemma ArrivalKeeps(p: Params, g: Genome, d: Daemon, sender: Str, text: Str)
    requires Inv(p, g, d)
    ensures var (g', d') := Step(p, g, d, Arrive(sender, text)); Inv(p, g', d')
  {
    var d' := Step(p, g, d, Arrive(sender, text)).1;
    forall e | e in d'.log ensures RightRecipient(d', e) {
      var m :| m in d.arrived && m.inboxSeq == e.inReplyTo && m.sender == e.to;
      assert m in d'.arrived;
    }
  }

  // ---- Main results ----

  /** In every run, whatever the brain replies and whatever is lost, each message gets at most one reply,
      and it goes to the one who sent the message. */
  lemma AtMostOneReplyToItsSender(p: Params, inputs: seq<Input>, i: nat, j: nat)
    requires var log := After(p, inputs).1.log; i < |log| && j < |log|
    ensures var (g, d) := After(p, inputs);
            && (d.log[i].inReplyTo == d.log[j].inReplyTo ==> i == j)
            && exists m :: m in d.arrived && m.inboxSeq == d.log[i].inReplyTo && m.sender == d.log[i].to
  {
    ReachableInv(p, inputs);
    var (g, d) := After(p, inputs);
    hide After;
    assert d.log[i] in d.log;
    assert RightRecipient(d, d.log[i]);
  }

  /** A call a tick may make while it holds a conversation. */
  predicate Allowed(c: Call, seqNo: nat, conv: Conversation, h: History, p: Params) {
    match c
    case AskRead(k) => k == seqNo
    case AskThink(k, turns) => k == seqNo && exists n ::
        0 <= n <= |Ring(h, conv.sender)| && turns == Ring(h, conv.sender)[n..]
    case AskDm(k, to, _) => k == seqNo && to == conv.sender
    case _ => false
  }

  /** All a conversation's tick asks for, in order. */
  ghost predicate Asks(d: Daemon, seqNo: nat, conv: Conversation, turns: seq<Turn>, d': Daemon) {
    var thought := d.asked + [AskRead(seqNo), AskThink(seqNo, turns)];
    d'.asked == thought || exists text :: d'.asked == thought + [AskDm(seqNo, conv.sender, text)]
  }

  lemma ReplyAsks(p: Params, d: Daemon, seqNo: nat, conv: Conversation, h: History, env: TickEnv, turns: seq<Turn>)
    requires turns == LastN(Ring(h, conv.sender), if conv.readsUsed == 0 then p.historyWindow else p.historyMax)
    ensures Asks(d, seqNo, conv, turns, ReplyTick(p, d, seqNo, conv, h, env).0)
  {
    hide LastN;
    hide Ring;
    var d0 := d.(asked := d.asked + [AskRead(seqNo)]);
    var (d1, thought) := Think(d0, seqNo, turns, env.think);
    ThinkShape(d0, seqNo, turns, env.think);
    assert d1.asked == d.asked + [AskRead(seqNo), AskThink(seqNo, turns)];
    hide Think;
    if thought.Thought? && p.parse(thought.reply).DmReply? {
      SendShape(d1, seqNo, conv.sender, p.parse(thought.reply).text, conv.inboxSeq, env.send);
    }
    hide Send;
  }

  lemma LastNIsSuffix<T>(s: seq<T>, n: nat)
    ensures exists k :: 0 <= k <= |s| && LastN(s, n) == s[k..]
  {
    assert s[0..] == s;
    assert LastN(s, n) == s[if |s| <= n then 0 else |s| - n..];
  }

  /** The quarantine: while it holds a conversation, a tick asks for reads, one thought on that sender's
      own turns, and at most one DM to that sender: no memory write, no post, no fetch, for any brain. */
  lemma Quarantine(p: Params, d: Daemon, seqNo: nat, conv: Conversation, h: History, env: TickEnv)
    ensures var d' := ReplyTick(p, d, seqNo, conv, h, env).0;
            && d.asked <= d'.asked
            && (forall c :: c in d'.asked[|d.asked|..] ==> Allowed(c, seqNo, conv, h, p))
            && |d'.asked| <= |d.asked| + 3
            && (forall k, l :: |d.asked| <= k < l < |d'.asked| ==> !(d'.asked[k].AskDm? && d'.asked[l].AskDm?))
  {
    var turns := LastN(Ring(h, conv.sender), if conv.readsUsed == 0 then p.historyWindow else p.historyMax);
    ReplyAsks(p, d, seqNo, conv, h, env, turns);
    LastNIsSuffix(Ring(h, conv.sender), if conv.readsUsed == 0 then p.historyWindow else p.historyMax);
    hide ReplyTick;
    hide LastN;
    hide Ring;
  }

  // ---- Conversations settle ----

  function Ticks(p: Params, g: Genome, d: Daemon, envs: seq<TickEnv>): (Genome, Daemon)
    decreases |envs|
  {
    if envs == [] then (g, d)
    else
      var (g', d') := Iterate(p, g, d, envs[0]);
      Ticks(p, g', d', envs[1..])
  }

  /** How many of the ticks committed their number. */
  function Commits(p: Params, g: Genome, d: Daemon, envs: seq<TickEnv>): nat
    decreases |envs|
  {
    if envs == [] then 0
    else
      var (g', d') := Iterate(p, g, d, envs[0]);
      (if g'.committed > g.committed then 1 else 0) + Commits(p, g', d', envs[1..])
  }

  predicate Settled(g: Genome, conv: Conversation) {
    g.parked || g.dmAck >= conv.inboxSeq
  }

  /** One tick of an unsettled conversation settles it, parks, retries, or uses up one widening. */
  lemma BusyProgress(p: Params, g: Genome, d: Daemon, env: TickEnv)
    requires Inv(p, g, d) && g.busy.Some? && !g.parked
    ensures var (g', d') := Iterate(p, g, d, env);
            var conv := g.busy.value;
            || Settled(g', conv)
            || (g'.committed == g.committed && g'.busy == g.busy && !g'.parked)
            || (g'.committed == g.committed + 1 && !g'.parked && conv.readsUsed < p.maxReads &&
                g'.busy == Some(conv.(readsUsed := conv.readsUsed + 1)))
  {
    IterateIs(p, g, d, env);
    ReplyShape(p, d, g.committed + 1, g.busy.value, g.history, env);
    hide Iterate;
    hide ReplyTick;
  }

  lemma {:induction false} StaysSettled(p: Params, g: Genome, d: Daemon, conv: Conversation, envs: seq<TickEnv>)
    requires Inv(p, g, d) && Settled(g, conv)
    ensures Settled(Ticks(p, g, d, envs).0, conv)
    decreases |envs|
  {
    if envs != [] {
      IterateKeeps(p, g, d, envs[0]);
      CursorGrows(p, g, d, envs[0]);
      var (g', d') := Iterate(p, g, d, envs[0]);
      hide Iterate;
      StaysSettled(p, g', d', conv, envs[1..]);
    }
  }

  lemma CursorGrows(p: Params, g: Genome, d: Daemon, env: TickEnv)
    requires Inv(p, g, d)
    ensures var g' := Iterate(p, g, d, env).0; g'.dmAck >= g.dmAck && (g.parked ==> g'.parked)
  {
    if !g.parked {
      IterateIs(p, g, d, env);
      TakenOk(p, g, d, env);
      hide Iterate;
      hide ReplyTick;
      hide OrdinaryTick;
      hide TakeConversation;
    }
  }

  /** A taken conversation settles (or the agent is out of runway) by the time the ticks that were not
      retries outnumber the widenings it had left: at most `maxReads + 1` of them in all. */
  lemma {:induction false} ConversationSettles(p: Params, g: Genome, d: Daemon, envs: seq<TickEnv>)
    requires Inv(p, g, d) && g.busy.Some?
    requires Commits(p, g, d, envs) > p.maxReads - g.busy.value.readsUsed
    ensures Settled(Ticks(p, g, d, envs).0, g.busy.value)
    decreases |envs|
  {
    if envs != [] {
      var conv := g.busy.value;
      var (g', d') := Iterate(p, g, d, envs[0]);
      IterateKeeps(p, g, d, envs[0]);
      if g.parked {
        StaysSettled(p, g, d, conv, envs);
      } else {
        BusyProgress(p, g, d, envs[0]);
        hide Iterate;
        if Settled(g', conv) {
          StaysSettled(p, g', d', conv, envs[1..]);
        } else {
          ConversationSettles(p, g', d', envs[1..]);
        }
      }
    }
  }

  // ---- History ----

  /** The turns of every confirmed exchange with `sender`, oldest first. */
  function TurnsOf(xs: seq<Exchange>, sender: Str): seq<Turn> {
    if xs == [] then []
    else
      var before := TurnsOf(xs[..|xs| - 1], sender);
      var x := xs[|xs| - 1];
      if x.sender == sender then before + [Them(x.message), Me(x.reply)] else before
  }

  ghost predicate RingsMatch(p: Params, g: Genome) {
    forall s :: Ring(g.history, s) == LastN(TurnsOf(g.exchanges, s), p.historyMax)
  }

  /** Trimming before appending is trimming once at the end. */
  lemma TrimTwice<T>(s: seq<T>, t: seq<T>, n: nat)
    ensures LastN(LastN(s, n) + t, n) == LastN(s + t, n)
  {
  }

  lemma RecordMatches(p: Params, g: Genome, x: Exchange)
    requires RingsMatch(p, g)
    ensures RingsMatch(p, g.(history := Record(g.history, x.sender, x.message, x.reply, p.historyMax),
                              exchanges := g.exchanges + [x]))
  {
    var xs := g.exchanges + [x];
    var h := Record(g.history, x.sender, x.message, x.reply, p.historyMax);
    assert xs[..|g.exchanges|] == g.exchanges;
    forall s ensures Ring(h, s) == LastN(TurnsOf(xs, s), p.historyMax) {
      TrimTwice(TurnsOf(g.exchanges, s), [Them(x.message), Me(x.reply)], p.historyMax);
      hide LastN;
      hide TurnsOf;
      TurnsSnoc(g.exchanges, x, s);
      LastNone(TurnsOf(xs, s));
      LastNone(TurnsOf(g.exchanges, s));
    }
  }

  lemma LastNone<T>(s: seq<T>)
    ensures LastN(s, 0) == []
  {
  }

  lemma TurnsSnoc(xs: seq<Exchange>, x: Exchange, s: Str)
    ensures TurnsOf(xs + [x], s) == if x.sender == s then TurnsOf(xs, s) + [Them(x.message), Me(x.reply)]
              else TurnsOf(xs, s)
  {
    assert (xs + [x])[..|xs|] == xs;
  }

  /** In every run each sender's ring is exactly the last `historyMax` turns of the exchanges confirmed
      with that sender, and holds nobody else's words. */
  lemma {:induction false} HistoryIsRecentExchanges(p: Params, inputs: seq<Input>)
    ensures RingsMatch(p, After(p, inputs).0)
  {
    if inputs == [] {
      forall s: Str ensures Ring(map[], s) == LastN(TurnsOf([], s), p.historyMax) {
      }
    } else {
      var n := |inputs| - 1;
      HistoryIsRecentExchanges(p, inputs[..n]);
      var (g, d) := After(p, inputs[..n]);
      if inputs[n].Run? {
        TickMatches(p, g, d, inputs[n].env);
      }
      hide Iterate;
      hide RingsMatch;
    }
  }

  lemma TickMatches(p: Params, g: Genome, d: Daemon, env: TickEnv)
    requires RingsMatch(p, g)
    ensures RingsMatch(p, Iterate(p, g, d, env).0)
  {
    var taken := TakeConversation(g, d, env);
    var seqNo := g.committed + 1;
    hide TakeConversation;
    hide ReplyTick;
    hide OrdinaryTick;
    if !g.parked && taken.Some? {
      var conv := taken.value;
      var o := ReplyTick(p, d, seqNo, conv, g.history, env).1;
      if o.Lived? && o.recordedWrite && o.action.DmReply? {
        RecordMatches(p, g, Exchange(conv.sender, conv.message, o.action.text, seqNo));
      }
    }
  }
}
