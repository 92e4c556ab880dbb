/** When a filed exchange was really delivered. The history is meant to hold exchanges that went out; a
    duplicate answer from the daemon also files one, and it may stand for a rejection whose answer was
    lost. This module says exactly when. */
module DmDelivery {
  import opened Bytes
  import opened DmModel
  import opened DmTheorems

  /** The reply of a filed exchange was published to its sender. */
  ghost predicate Delivered(d: Daemon, x: Exchange) {
    exists e :: e in d.log && e.seqNo == x.seqNo && e.to == x.sender && e.text == x.reply
  }

  /** A publication under key `k` carried the reply its think decided, to whoever is still being answered. */
  ghost predicate Published(p: Params, g: Genome, d: Daemon, k: nat)
    requires k in d.thinks && p.parse(d.thinks[k]).DmReply?
  {
    exists e :: e in d.log && e.seqNo == k && e.text == p.parse(d.thinks[k]).text
                && (k == g.committed + 1 ==> g.busy.Some? && e.to == g.busy.value.sender)
  }

  ghost predicate KeyOk(p: Params, g: Genome, d: Daemon, k: nat)
    requires k in d.sends
  {
    && k <= g.committed + 1 && (k == g.committed + 1 ==> g.busy.Some?)
    && k in d.thinks && p.parse(d.thinks[k]).DmReply?
    && (d.sends[k] ==> Published(p, g, d, k))
  }

  ghost predicate ExchangeOk(g: Genome, d: Daemon, x: Exchange) {
    && x.seqNo <= g.committed && x.seqNo in d.sends
    && (d.sends[x.seqNo] <==> Delivered(d, x))
  }

  ghost predicate Told(p: Params, g: Genome, d: Daemon) {
    && Inv(p, g, d)
    && (forall k :: k in d.sends ==> KeyOk(p, g, d, k))
    && (forall x :: x in g.exchanges ==> ExchangeOk(g, d, x))
  }

  // ---- One tick ----

  /** Only the first burning of a key can publish, and it publishes the decided reply. */
  ghost predicate Tells(p: Params, d: Daemon, seqNo: nat, conv: Conversation, d': Daemon, o: Outcome) {
    && (forall k :: k in d.thinks ==> k in d'.thinks && d'.thinks[k] == d.thinks[k])
    && (if seqNo in d'.sends && seqNo !in d.sends && d'.sends[seqNo]
        then seqNo in d'.thinks && p.parse(d'.thinks[seqNo]).DmReply? &&
             d'.log == d.log + [Sent(seqNo, conv.sender, p.parse(d'.thinks[seqNo]).text, conv.inboxSeq)]
        else d'.log == d.log)
    && (o.Lived? && o.recordedWrite && o.action.DmReply? ==>
          seqNo in d'.sends && seqNo in d'.thinks && o.action == p.parse(d'.thinks[seqNo]))
  }

  lemma SendTells(d: Daemon, seqNo: nat, to: Str, text: Str, inReplyTo: nat, fate: SendFate)
    ensures var (d', r) := Send(d, seqNo, to, text, inReplyTo, fate);
            && d'.thinks == d.thinks
            && d'.log == (if seqNo in d'.sends && seqNo !in d.sends && d'.sends[seqNo]
                          then d.log + [Sent(seqNo, to, text, inReplyTo)] else d.log)
            && (r.SendDone? && r.recordedWrite ==> seqNo in d'.sends)
  {
  }

  lemma ReplyTells(p: Params, d: Daemon, seqNo: nat, conv: Conversation, h: History, env: TickEnv)
    ensures var (d', o) := ReplyTick(p, d, seqNo, conv, h, env); Tells(p, d, seqNo, conv, d', o)
  {
    hide LastN;
    hide Ring;
    var d0 := d.(asked := d.asked + [AskRead(seqNo)]);
    var turns := LastN(Ring(h, conv.sender), if conv.readsUsed == 0 then p.historyWindow else p.historyMax);
    ThinkShape(d0, seqNo, turns, env.think);
    var (d1, thought) := Think(d0, seqNo, turns, env.think);
    hide Think;
    if thought.Thought? && p.parse(thought.reply).DmReply? {
      SendTells(d1, seqNo, conv.sender, p.parse(thought.reply).text, conv.inboxSeq, env.send);
    }
    hide Send;
  }

  /** What a tick with a conversation leaves filed. */
  lemma FiledIs(p: Params, g: Genome, d: Daemon, env: TickEnv)
    requires !g.parked
    ensures var taken := TakeConversation(g, d, env);
            var xs := Iterate(p, g, d, env).0.exchanges;
            if taken.Some? then
              var o := ReplyTick(p, d, g.committed + 1, taken.value, g.history, env).1;
              xs == if o.Lived? && o.recordedWrite && o.action.DmReply?
                    then g.exchanges
                         + [Exchange(taken.value.sender, taken.value.message, o.action.text, g.committed + 1)]
                    else g.exchanges
            else xs == g.exchanges
  {
    hide ReplyTick;
    hide OrdinaryTick;
    hide TakeConversation;
    hide Record;
  }

  lemma KeyStays(p: Params, g: Genome, d: Daemon, conv: Conversation, d': Daemon, o: Outcome, g': Genome, k: nat)
    requires Told(p, g, d)
    requires g.busy.Some? ==> g.busy == Some(conv)
    requires BusyShape(p, d, g.committed + 1, conv, d', o) && Tells(p, d, g.committed + 1, conv, d', o)
    requires g'.committed == (if o.Transient? then g.committed else g.committed + 1)
    requires o.Transient? ==> g'.busy == Some(conv)
    requires k in d'.sends
    ensures KeyOk(p, g', d', k)
  {
    if d'.sends[k] {
      if k in d.sends {
        assert KeyOk(p, g, d, k);
        var e :| e in d.log && e.seqNo == k && e.text == p.parse(d.thinks[k]).text
                 && (k == g.committed + 1 ==> g.busy.Some? && e.to == g.busy.value.sender);
        assert e in d'.log;
      } else {
        var e := Sent(k, conv.sender, p.parse(d'.thinks[k]).text, conv.inboxSeq);
        assert e in d'.log;
      }
    } else if k in d.sends {
      assert KeyOk(p, g, d, k);
    }
  }

  lemma FiledStays(p: Params, g: Genome, d: Daemon, conv: Conversation, d': Daemon, o: Outcome, g': Genome, x: Exchange)
    requires Told(p, g, d) && Inv(p, g', d')
    requires BusyShape(p, d, g.committed + 1, conv, d', o) && Tells(p, d, g.committed + 1, conv, d', o)
    requires g'.committed >= g.committed
    requires x in g.exchanges
    ensures ExchangeOk(g', d', x)
  {
    assert ExchangeOk(g, d, x);
    if Delivered(d', x) {
      var e :| e in d'.log && e.seqNo == x.seqNo && e.to == x.sender && e.text == x.reply;
      assert DeliveryOk(p, g', d', e);
    }
    if Delivered(d, x) {
      var e :| e in d.log && e.seqNo == x.seqNo && e.to == x.sender && e.text == x.reply;
      assert e in d'.log;
    }
  }

  /** The exchange a tick files was delivered exactly when the key's burning was a publication. */
  lemma FiledNow(p: Params, g: Genome, d: Daemon, conv: Conversation, d': Daemon, o: Outcome, g': Genome, x: Exchange)
    requires Told(p, g, d) && Inv(p, g', d')
    requires g.busy.Some? ==> g.busy == Some(conv)
    requires BusyShape(p, d, g.committed + 1, conv, d', o) && Tells(p, d, g.committed + 1, conv, d', o)
    requires o.Lived? && o.recordedWrite && o.action.DmReply? && g'.committed == g.committed + 1
    requires x == Exchange(conv.sender, conv.message, o.action.text, g.committed + 1)
    ensures ExchangeOk(g', d', x)
  {
    var k := g.committed + 1;
    if Delivered(d', x) {
      var e :| e in d'.log && e.seqNo == x.seqNo && e.to == x.sender && e.text == x.reply;
      assert DeliveryOk(p, g', d', e);
    }
    if d'.sends[k] {
      if k in d.sends {
        assert KeyOk(p, g, d, k);
        var e :| e in d.log && e.seqNo == k && e.text == p.parse(d.thinks[k]).text
                 && (k == g.committed + 1 ==> g.busy.Some? && e.to == g.busy.value.sender);
        assert e in d'.log;
      } else {
        var e := Sent(k, conv.sender, p.parse(d'.thinks[k]).text, conv.inboxSeq);
        assert e in d'.log;
      }
    }
  }

  lemma BusyTells(p: Params, g: Genome, d: Daemon, env: TickEnv)
    requires Told(p, g, d) && !g.parked && TakeConversation(g, d, env).Some?
    ensures var (g', d') := Iterate(p, g, d, env); Told(p, g', d')
  {
    assert Inv(p, g, d) && BusyOk(p, g, d) && KeysOk(p, d);
    IterateKeeps(p, g, d, env);
    TakenOk(p, g, d, env);
    IterateIs(p, g, d, env);
    FiledIs(p, g, d, env);
    var conv := TakeConversation(g, d, env).value;
    var seqNo := g.committed + 1;
    ReplyShape(p, d, seqNo, conv, g.history, env);
    ReplyTells(p, d, seqNo, conv, g.history, env);
    var (g', d') := Iterate(p, g, d, env);
    var o := ReplyTick(p, d, seqNo, conv, g.history, env).1;
    hide Iterate;
    hide ReplyTick;
    hide TakeConversation;
    hide Inv;
    hide BusyShape;
    hide Tells;
    hide KeyOk;
    hide ExchangeOk;
    forall k | k in d'.sends ensures KeyOk(p, g', d', k) {
      KeyStays(p, g, d, conv, d', o, g', k);
    }
    forall x | x in g'.exchanges ensures ExchangeOk(g', d', x) {
      if x in g.exchanges {
        FiledStays(p, g, d, conv, d', o, g', x);
      } else {
        FiledNow(p, g, d, conv, d', o, g', x);
      }
    }
  }

  lemma IdleTells(p: Params, g: Genome, d: Daemon, env: TickEnv)
    requires Told(p, g, d) && !g.parked && TakeConversation(g, d, env).None?
    ensures var (g', d') := Iterate(p, g, d, env); Told(p, g', d')
  {
    IterateKeeps(p, g, d, env);
    NotTakenIsIdle(g, d, env);
    IterateIs(p, g, d, env);
    OrdinaryShape(p, d, g.committed + 1, env);
    OrdinaryThinks(p, d, g.committed + 1, env);
    var (g', d') := Iterate(p, g, d, env);
    hide Iterate;
    hide OrdinaryTick;
    hide TakeConversation;
    hide Inv;
    forall k | k in d'.sends ensures KeyOk(p, g', d', k) {
      assert KeyOk(p, g, d, k);
    }
    forall x | x in g'.exchanges ensures ExchangeOk(g', d', x) {
      assert ExchangeOk(g, d, x);
    }
  }

  lemma OrdinaryThinks(p: Params, d: Daemon, seqNo: nat, env: TickEnv)
    ensures var d' := OrdinaryTick(p, d, seqNo, env).0;
            forall k :: k in d.thinks ==> k in d'.thinks && d'.thinks[k] == d.thinks[k]
  {
    ThinkShape(d.(asked := d.asked + [AskRead(seqNo)]), seqNo, [], env.think);
    hide Think;
  }

  lemma ArrivalTells(p: Params, g: Genome, d: Daemon, sender: Str, text: Str)
    requires Told(p, g, d)
    ensures var (g', d') := Step(p, g, d, Arrive(sender, text)); Told(p, g', d')
  {
    ArrivalKeeps(p, g, d, sender, text);
    var d' := Step(p, g, d, Arrive(sender, text)).1;
    hide Inv;
    forall k | k in d'.sends ensures KeyOk(p, g, d', k) {
      assert KeyOk(p, g, d, k);
    }
    forall x | x in g.exchanges ensures ExchangeOk(g, d', x) {
      assert ExchangeOk(g, d, x);
    }
  }

  lemma {:induction false} ReachableTold(p: Params, inputs: seq<Input>)
    ensures var (g, d) := After(p, inputs); Told(p, g, d)
  {
    hide Iterate;
    if inputs != [] {
      var n := |inputs| - 1;
      ReachableTold(p, inputs[..n]);
      var (g, d) := After(p, inputs[..n]);
      match inputs[n]
      case Run(env) => IterateTells(p, g, d, env);
      case Arrive(sender, text) => ArrivalTells(p, g, d, sender, text);
    }
  }

  lemma IterateTells(p: Params, g: Genome, d: Daemon, env: TickEnv)
    requires Told(p, g, d)
    ensures var (g', d') := Iterate(p, g, d, env); Told(p, g', d')
  {
    if !g.parked {
      hide Iterate;
      hide Told;
      hide TakeConversation;
      if TakeConversation(g, d, env).Some? {
        BusyTells(p, g, d, env);
      } else {
        IdleTells(p, g, d, env);
      }
    }
  }

  // ---- Main results ----

  /** In every run, a filed exchange was delivered, to its sender and with its text, exactly when the
      daemon burned its key by publishing rather than by a rejection. */
  lemma FiledIffPublished(p: Params, inputs: seq<Input>, x: Exchange)
    requires x in After(p, inputs).0.exchanges
    ensures var d := After(p, inputs).1; x.seqNo in d.sends && (d.sends[x.seqNo] <==> Delivered(d, x))
  {
    ReachableTold(p, inputs);
    hide After;
    var (g, d) := After(p, inputs);
    assert ExchangeOk(g, d, x);
  }

  /** Seen from before the tick: a reply filed now was never delivered exactly when its key had already
      been burned by a rejection the agent did not hear about. */
  lemma PhantomIff(p: Params, inputs: seq<Input>, env: TickEnv, x: Exchange)
    requires var (g, d) := After(p, inputs); Iterate(p, g, d, env).0.exchanges == g.exchanges + [x]
    ensures var (g, d) := After(p, inputs);
            !Delivered(Iterate(p, g, d, env).1, x) <==> (g.committed + 1 in d.sends && !d.sends[g.committed + 1])
  {
    ReachableTold(p, inputs);
    var (g, d) := After(p, inputs);
    hide After;
    IterateTells(p, g, d, env);
    var (g', d') := Iterate(p, g, d, env);
    assert x in g'.exchanges && ExchangeOk(g', d', x);
    FiledGrows(p, g, d, env, x);
  }

  /** A tick that files an exchange burned its own key, by a publication unless it was burned before. */
  lemma FiledGrows(p: Params, g: Genome, d: Daemon, env: TickEnv, x: Exchange)
    requires Iterate(p, g, d, env).0.exchanges == g.exchanges + [x]
    ensures var d' := Iterate(p, g, d, env).1;
            && x.seqNo == g.committed + 1 && x.seqNo in d'.sends
            && d'.sends[x.seqNo] == if x.seqNo in d.sends then d.sends[x.seqNo] else true
  {
    assert |g.exchanges + [x]| != |g.exchanges|;
    assert !g.parked;
    FiledIs(p, g, d, env);
    IterateIs(p, g, d, env);
    var conv := TakeConversation(g, d, env).value;
    var (g', d') := Iterate(p, g, d, env);
    assert g'.exchanges[|g.exchanges|] == x;
    hide Iterate;
    hide TakeConversation;
    FilingBurns(p, d, g.committed + 1, conv, g.history, env);
    hide ReplyTick;
  }

  lemma FilingBurns(p: Params, d: Daemon, seqNo: nat, conv: Conversation, h: History, env: TickEnv)
    requires var o := ReplyTick(p, d, seqNo, conv, h, env).1; o.Lived? && o.recordedWrite && o.action.DmReply?
    ensures var d' := ReplyTick(p, d, seqNo, conv, h, env).0;
            seqNo in d'.sends && d'.sends[seqNo] == if seqNo in d.sends then d.sends[seqNo] else true
  {
    hide LastN;
    hide Ring;
    var d0 := d.(asked := d.asked + [AskRead(seqNo)]);
    var turns := LastN(Ring(h, conv.sender), if conv.readsUsed == 0 then p.historyWindow else p.historyMax);
    ThinkShape(d0, seqNo, turns, env.think);
    hide Think;
  }

  const ECHO := Params((reply: Str) => DmReply(reply), 2, 2, 0)

  /** The rejected send's answer is lost, the retry is told "duplicate", and the agent files a reply that
      nobody received. */
  lemma SomeRunFilesAPhantom()
    ensures exists inputs :: var (g, d) := After(ECHO, inputs); |g.exchanges| == 1 && d.log == []
  {
    var think := ThinkReached(Performed([]), false);
    var rejected := Run(TickEnv(true, think, SendReached(SendUpstreamFailed, true), false));
    var retried := Run(TickEnv(true, think, SendReached(SendPerformed, false), false));
    var i1 := [Arrive([], [])];
    var i2 := i1 + [rejected];
    var i3 := i2 + [retried];
    assert i1[..0] == [] && i2[..1] == i1 && i3[..2] == i2;
    var m := Message(1, [], []);
    var conv := Conversation([], 1, [], 0);
    var (g1, d1) := After(ECHO, i1);
    assert g1 == FRESH_GENOME && d1 == EMPTY_DAEMON.(arrived := [m]);
    var (g2, d2) := After(ECHO, i2);
    assert FirstPast(d1.arrived, 0) == Some(m);
    assert g2 == FRESH_GENOME.(busy := Some(conv));
    assert d2.sends == map[1 := false] && d2.thinks == map[1 := []] && d2.log == [];
    var (g3, d3) := After(ECHO, i3);
    assert d3.log == [] && g3.exchanges == [Exchange([], [], [], 1)];
  }
}
