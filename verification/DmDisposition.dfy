/** Exactly what one tick of the private-message agent does, in terms of what the brain and the daemon let through:
    which message it takes, what it shows the brain, what it does with the conversation, and what it files. */
module DmDisposition {
  import opened Bytes
  import opened DmModel
  import opened DmTheorems

  // ---- What comes back ----

  /** The thought that reaches the agent under number `n`: the one kept under it, else one performed now. */
  function ComesBack(d: Daemon, n: nat, fate: ThinkFate): Option<Str> {
    if !fate.ThinkReached? || fate.lost then None
    else if n in d.thinks then Some(d.thinks[n])
    else if fate.outcome.Performed? then Some(fate.outcome.reply)
    else None
  }

  /** The agent hears that it cannot afford the thought. */
  predicate Denied(d: Daemon, n: nat, fate: ThinkFate) {
    fate.ThinkReached? && !fate.lost && n !in d.thinks && fate.outcome.Broke?
  }

  predicate AnswerLost(fate: SendFate) {
    fate.SendUnreached? || fate.lost
  }

  // ---- Which message ----

  ghost predicate InOrder(arrived: seq<Message>) {
    forall i, j :: 0 <= i < j < |arrived| ==> arrived[i].inboxSeq < arrived[j].inboxSeq
  }

  lemma {:induction false} FirstIsOldest(arrived: seq<Message>, ack: nat)
    requires InOrder(arrived)
    ensures var m := FirstPast(arrived, ack);
            && (m.None? <==> forall x :: x in arrived ==> x.inboxSeq <= ack)
            && (m.Some? ==>
                  && m.value in arrived && m.value.inboxSeq > ack
                  && forall x :: x in arrived && x.inboxSeq > ack ==> m.value.inboxSeq <= x.inboxSeq)
  {
    if arrived != [] {
      InOrderRest(arrived);
      hide InOrder;
      FirstIsOldest(arrived[1..], ack);
      assert arrived == [arrived[0]] + arrived[1..];
    }
  }

  lemma InOrderRest(arrived: seq<Message>)
    requires InOrder(arrived) && arrived != []
    ensures InOrder(arrived[1..]) && forall x :: x in arrived[1..] ==> arrived[0].inboxSeq < x.inboxSeq
  {
  }

  lemma {:induction false} ArrivedInOrder(p: Params, inputs: seq<Input>)
    ensures InOrder(After(p, inputs).1.arrived)
    ensures forall m :: m in After(p, inputs).1.arrived ==> 0 < m.inboxSeq <= LastSeq(After(p, inputs).1.arrived)
  {
    if inputs != [] {
      var n := |inputs| - 1;
      ArrivedInOrder(p, inputs[..n]);
      var (g, d) := After(p, inputs[..n]);
      hide After;
      if inputs[n].Run? {
        TickArrived(p, g, d, inputs[n].env);
      }
      hide Iterate;
    }
  }

  lemma TickArrived(p: Params, g: Genome, d: Daemon, env: TickEnv)
    ensures Iterate(p, g, d, env).1.arrived == d.arrived
  {
    if !g.parked {
      IterateIs(p, g, d, env);
      var taken := TakeConversation(g, d, env);
      if taken.Some? {
        ReplyArrived(p, d, g.committed + 1, taken.value, g.history, env);
      } else {
        OrdinaryArrived(p, d, g.committed + 1, env);
      }
      hide Iterate;
      hide ReplyTick;
      hide OrdinaryTick;
      hide TakeConversation;
    }
  }

  /** In every run, an idle tick whose poll succeeds takes the oldest message past the cursor, unread, and none only
      when every message is confirmed; a tick that holds a conversation, or cannot poll, takes none. */
  lemma TakesTheOldest(p: Params, inputs: seq<Input>, env: TickEnv)
    ensures var (g, d) := After(p, inputs);
            var taken := TakeConversation(g, d, env);
            && (g.busy.Some? ==> taken == g.busy)
            && (g.busy.None? && !env.pollOk ==> taken.None?)
            && (g.busy.None? && env.pollOk ==>
                  && (taken.None? <==> forall x :: x in d.arrived ==> x.inboxSeq <= g.dmAck)
                  && (taken.Some? ==>
                        && taken.value.readsUsed == 0 && taken.value.inboxSeq > g.dmAck
                        && Message(taken.value.inboxSeq, taken.value.sender, taken.value.message) in d.arrived
                        && forall x :: x in d.arrived && x.inboxSeq > g.dmAck ==> taken.value.inboxSeq <= x.inboxSeq))
  {
    ArrivedInOrder(p, inputs);
    var (g, d) := After(p, inputs);
    hide After;
    FirstIsOldest(d.arrived, g.dmAck);
    hide FirstPast;
  }

  // ---- What the brain sees ----

  /** A conversation's tick asks for one thought, on the last turns with that sender: as many as the window holds at
      first, as many as the history holds once it has been widened. */
  lemma ShowsWindow(p: Params, d: Daemon, n: nat, conv: Conversation, h: History, env: TickEnv)
    returns (turns: seq<Turn>)
    ensures var ring := if conv.sender in h then h[conv.sender] else [];
            var most := if conv.readsUsed == 0 then p.historyWindow else p.historyMax;
            && |turns| == (if |ring| < most then |ring| else most) && turns == ring[|ring| - |turns|..]
    ensures var d' := ReplyTick(p, d, n, conv, h, env).0;
            d.asked + [AskRead(n), AskThink(n, turns)] <= d'.asked
  {
    turns := LastN(Ring(h, conv.sender), if conv.readsUsed == 0 then p.historyWindow else p.historyMax);
    ReplyAsks(p, d, n, conv, h, env, turns);
    assert Ring(h, conv.sender)[0..] == Ring(h, conv.sender);
    hide ReplyTick;
  }

  // ---- What becomes of the conversation ----

  /** A READ_MORE comes back with reads left. */
  ghost predicate Widens(p: Params, d: Daemon, n: nat, conv: Conversation, env: TickEnv) {
    var t := ComesBack(d, n, env.think);
    t.Some? && p.parse(t.value) == ReadMore && conv.readsUsed < p.maxReads
  }

  /** The think or the send is lost. */
  ghost predicate Keeps(p: Params, d: Daemon, n: nat, env: TickEnv) {
    var t := ComesBack(d, n, env.think);
    if t.None? then !Denied(d, n, env.think) else p.parse(t.value).DmReply? && AnswerLost(env.send)
  }

  /** A reply comes back and the daemon says that it went out. */
  ghost predicate Files(p: Params, d: Daemon, n: nat, env: TickEnv) {
    var t := ComesBack(d, n, env.think);
    && t.Some? && p.parse(t.value).DmReply? && !AnswerLost(env.send)
    && (n in d.sends || env.send.verdict == SendPerformed)
  }

  /** A reply comes back under a free send key and the daemon publishes it. */
  ghost predicate Sends(p: Params, d: Daemon, n: nat, env: TickEnv) {
    var t := ComesBack(d, n, env.think);
    && t.Some? && p.parse(t.value).DmReply?
    && n !in d.sends && env.send.SendReached? && env.send.verdict == SendPerformed
  }

  lemma ThinkComesBack(d: Daemon, n: nat, turns: seq<Turn>, fate: ThinkFate)
    ensures var (d', r) := Think(d, n, turns, fate);
            && d'.sends == d.sends && d'.log == d.log
            && (match r
                case Thought(reply) => ComesBack(d, n, fate) == Some(reply)
                case ThinkDenied => ComesBack(d, n, fate).None? && Denied(d, n, fate)
                case ThinkFailed => ComesBack(d, n, fate).None? && !Denied(d, n, fate))
  {
  }

  lemma ReplyDisposes(p: Params, d: Daemon, n: nat, conv: Conversation, h: History, env: TickEnv)
    ensures var (d', o) := ReplyTick(p, d, n, conv, h, env);
            && (o.Widened? <==> Widens(p, d, n, conv, env))
            && (o.Dead? <==> Denied(d, n, env.think))
            && (o.Transient? <==> Keeps(p, d, n, env))
            && (o.Lived? && o.recordedWrite <==> Files(p, d, n, env))
            && (Files(p, d, n, env) ==> o.action == p.parse(ComesBack(d, n, env.think).value))
            && d'.log == (if Sends(p, d, n, env)
                          then d.log + [Sent(n, conv.sender, p.parse(ComesBack(d, n, env.think).value).text,
                                             conv.inboxSeq)]
                          else d.log)
  {
    hide LastN;
    hide Ring;
    var d0 := d.(asked := d.asked + [AskRead(n)]);
    var turns := LastN(Ring(h, conv.sender), if conv.readsUsed == 0 then p.historyWindow else p.historyMax);
    ThinkComesBack(d0, n, turns, env.think);
    hide Think;
    hide ComesBack;
    hide Denied;
    assert ComesBack(d0, n, env.think) == ComesBack(d, n, env.think) by {
      SameLedgers(d0, d, n, env.think);
    }
    assert Denied(d0, n, env.think) <==> Denied(d, n, env.think) by {
      SameLedgers(d0, d, n, env.think);
    }
  }

  lemma SameLedgers(d: Daemon, d': Daemon, n: nat, fate: ThinkFate)
    requires d'.thinks == d.thinks
    ensures ComesBack(d, n, fate) == ComesBack(d', n, fate) && (Denied(d, n, fate) <==> Denied(d', n, fate))
  {
  }

  /** The disposition of a tick that holds a conversation. It widens by one read exactly when a READ_MORE comes back
      with reads left; it parks exactly on a thought denied; it keeps the conversation as it is, for a retry under
      the same number, exactly when the think or the send is lost; and otherwise it settles the conversation. A
      reply is filed exactly when the daemon says it went out, and delivered exactly when it really did. */
  lemma TickDisposes(p: Params, g: Genome, d: Daemon, env: TickEnv, conv: Conversation)
    requires !g.parked && TakeConversation(g, d, env) == Some(conv)
    ensures var (g', d') := Iterate(p, g, d, env);
            var n := g.committed + 1;
            && (Widens(p, d, n, conv, env) <==> g'.busy == Some(conv.(readsUsed := conv.readsUsed + 1)))
            && (Denied(d, n, env.think) <==> g'.parked)
            && (Keeps(p, d, n, env) <==> g'.committed == g.committed)
            && (Keeps(p, d, n, env) || Denied(d, n, env.think) ==> g'.busy == Some(conv))
            && (!Widens(p, d, n, conv, env) && !Denied(d, n, env.think) && !Keeps(p, d, n, env) <==> g'.busy.None?)
            && g'.dmAck == (if g'.busy.None? then conv.inboxSeq else g.dmAck)
            && g'.committed == (if Keeps(p, d, n, env) then g.committed else n)
            && g'.exchanges == (if Files(p, d, n, env)
                                then g.exchanges + [Exchange(conv.sender, conv.message,
                                                             p.parse(ComesBack(d, n, env.think).value).text, n)]
                                else g.exchanges)
            && d'.log == (if Sends(p, d, n, env)
                          then d.log + [Sent(n, conv.sender, p.parse(ComesBack(d, n, env.think).value).text,
                                             conv.inboxSeq)]
                          else d.log)
  {
    var n := g.committed + 1;
    ReplyDisposes(p, d, n, conv, g.history, env);
    OnlyOne(p, d, n, conv, env);
    hide ReplyTick;
    hide TakeConversation;
    hide Widens;
    hide Denied;
    hide Keeps;
    hide Files;
    hide Sends;
    hide ComesBack;
    hide Record;
  }

  lemma OnlyOne(p: Params, d: Daemon, n: nat, conv: Conversation, env: TickEnv)
    ensures Files(p, d, n, env) ==> p.parse(ComesBack(d, n, env.think).value).DmReply?
    ensures Widens(p, d, n, conv, env) ==> !Denied(d, n, env.think) && !Keeps(p, d, n, env) && !Files(p, d, n, env)
    ensures Denied(d, n, env.think) ==> !Keeps(p, d, n, env) && !Files(p, d, n, env)
  {
  }

  // ---- The ordinary tick ----

  /** An ordinary tick that hears its thought does what the thought says: it asks for one memory write, one post or one
      fetch and nothing else, and retries only a post or a fetch whose answer is lost. Any other plan asks for
      nothing. It sends no DM. */
  lemma OrdinaryDisposes(p: Params, d: Daemon, n: nat, env: TickEnv)
    ensures var (d', o) := OrdinaryTick(p, d, n, env);
            var t := ComesBack(d, n, env.think);
            var thought := d.asked + [AskRead(n), AskThink(n, [])];
            var plan := if t.None? then Quiet else p.parse(t.value);
            && d'.asked == thought + (match plan
                                      case Remember => [AskWrite(n)]
                                      case Post => [AskPost(n)]
                                      case Fetch => [AskFetch(n)]
                                      case _ => [])
            && (o.Dead? <==> Denied(d, n, env.think))
            && (o.Transient? <==> (t.None? && !Denied(d, n, env.think)) || ((plan.Post? || plan.Fetch?) && env.actLost))
            && !o.Widened?
            && (o.Lived? && o.recordedWrite <==> (plan.Post? || plan.Remember?) && !env.actLost)
            && d'.log == d.log && d'.sends == d.sends
  {
    var d0 := d.(asked := d.asked + [AskRead(n)]);
    ThinkComesBack(d0, n, [], env.think);
    ThinkShape(d0, n, [], env.think);
    SameLedgers(d0, d, n, env.think);
    hide Think;
    hide ComesBack;
    hide Denied;
    assert d.asked + [AskRead(n)] + [AskThink(n, [])] == d.asked + [AskRead(n), AskThink(n, [])];
  }
}
