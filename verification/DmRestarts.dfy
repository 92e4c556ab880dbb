/** Private messages across restarts of the agent. History, cursor and busy flag die with it; the tick number comes back
    from the last checkpoint; the daemon keeps its ledgers and the messages no poll has confirmed. Which message can
    be answered again, how often, and which thought a reply was decided by. */
module DmRestarts {
  import opened Bytes
  import opened DmModel
  import opened DmTheorems
  import DmDelivery
  import opened DmDisposition

  // ---- Boots ----

  /** `g` and `d` are of this boot: `d.arrived` is what the daemon has held since, `d.log` what has gone out since.
      `inbox` is every message ever, `floor` the highest cursor a poll has confirmed, `saved` the checkpoint.
      `bootFloor` and `bootThinks` are the mark and the thought numbers at the restart, `minds` says for which
      message each number was first thought under (0 for none), `past` what earlier boots sent. */
  datatype World = World(
    g: Genome,
    d: Daemon,
    inbox: seq<Message>,
    floor: nat,
    saved: nat,
    bootFloor: nat,
    bootThinks: set<nat>,
    minds: map<nat, nat>,
    past: seq<seq<Sent>>)

  /** `pruned`: the poll confirms the cursor even if its answer is lost. `stored`: a checkpoint, if submitted, gets
      through. */
  datatype Move = Comes(sender: Str, text: Str) | Ticks(env: TickEnv, pruned: bool, stored: bool) | Restart

  const FIRST_WORLD := World(FRESH_GENOME, EMPTY_DAEMON, [], 0, 0, 0, {}, map[], [])

  /** The messages of `inbox` numbered above `floor`. */
  function Above(inbox: seq<Message>, floor: nat): seq<Message> {
    if inbox == [] then []
    else if inbox[0].inboxSeq > floor then [inbox[0]] + Above(inbox[1..], floor)
    else Above(inbox[1..], floor)
  }

  function Max(a: nat, b: nat): nat { if a < b then b else a }

  /** Whether a tick polls the inbox so that the daemon confirms the cursor. */
  predicate Confirms(g: Genome, env: TickEnv, pruned: bool) {
    g.busy.None? && (env.pollOk || pruned)
  }

  function AfterTick(p: Params, w: World, env: TickEnv, pruned: bool, stored: bool): World {
    if w.g.parked then w
    else
      var n := w.g.committed + 1;
      var taken := TakeConversation(w.g, w.d, env);
      var o := Tick(p, w.g, w.d, n, env).2;
      var (g, d) := Iterate(p, w.g, w.d, env);
      w.(g := g, d := d,
         floor := if Confirms(w.g, env, pruned) then Max(w.floor, w.g.dmAck) else w.floor,
         saved := if o.Lived? && o.recordedWrite && stored then n else w.saved,
         minds := if n in d.thinks && n !in w.d.thinks
                  then w.minds[n := if taken.Some? then taken.value.inboxSeq else 0] else w.minds)
  }

  function Move1(p: Params, w: World, move: Move): World {
    match move
    case Comes(sender, text) =>
      var m := Message(LastSeq(w.inbox) + 1, sender, text);
      w.(inbox := w.inbox + [m], d := w.d.(arrived := w.d.arrived + [m]))
    case Ticks(env, pruned, stored) => AfterTick(p, w, env, pruned, stored)
    case Restart =>
      w.(g := FRESH_GENOME.(committed := w.saved),
         d := w.d.(arrived := Above(w.inbox, w.floor), log := []),
         bootFloor := w.floor,
         bootThinks := w.d.thinks.Keys,
         past := w.past + [w.d.log])
  }

  function Moved(p: Params, moves: seq<Move>): World {
    if moves == [] then FIRST_WORLD
    else Move1(p, Moved(p, moves[..|moves| - 1]), moves[|moves| - 1])
  }

  // ---- The inbox ----

  ghost predicate Numbered(inbox: seq<Message>) {
    && (forall i :: 0 <= i < |inbox| ==> inbox[i].inboxSeq > 0)
    && (forall i, j :: 0 <= i < j < |inbox| ==> inbox[i].inboxSeq < inbox[j].inboxSeq)
  }

  lemma {:induction false} AboveIs(inbox: seq<Message>, floor: nat)
    ensures forall m :: m in Above(inbox, floor) <==> m in inbox && m.inboxSeq > floor
  {
    if inbox != [] {
      AboveIs(inbox[1..], floor);
      assert inbox == [inbox[0]] + inbox[1..];
    }
  }

  lemma {:induction false} AboveSnoc(inbox: seq<Message>, m: Message, floor: nat)
    requires m.inboxSeq > floor
    ensures Above(inbox + [m], floor) == Above(inbox, floor) + [m]
  {
    if inbox == [] {
      assert [] + [m] == [m];
    } else {
      assert (inbox + [m])[1..] == inbox[1..] + [m];
      AboveSnoc(inbox[1..], m, floor);
    }
  }

  lemma NumberedTail(inbox: seq<Message>)
    requires Numbered(inbox) && inbox != []
    ensures Numbered(inbox[1..]) && forall m :: m in inbox[1..] ==> m.inboxSeq > inbox[0].inboxSeq
  {
  }

  lemma {:induction false} AboveInOrder(inbox: seq<Message>, floor: nat)
    requires Numbered(inbox)
    ensures InOrder(Above(inbox, floor))
  {
    if inbox != [] {
      NumberedTail(inbox);
      hide Numbered;
      AboveInOrder(inbox[1..], floor);
      AboveIs(inbox[1..], floor);
      InOrderCons(inbox[0], Above(inbox[1..], floor));
    }
  }

  lemma InOrderCons(m: Message, rest: seq<Message>)
    requires InOrder(rest) && forall x :: x in rest ==> m.inboxSeq < x.inboxSeq
    ensures InOrder([m] + rest)
  {
  }

  /** What is taken from the held messages is the least past the cursor. */
  lemma TakesLeast(inbox: seq<Message>, floor: nat, ack: nat)
    requires Numbered(inbox)
    ensures var m := FirstPast(Above(inbox, floor), ack);
            && (m.None? ==> forall x :: x in inbox && x.inboxSeq > floor ==> x.inboxSeq <= ack)
            && (m.Some? ==> m.value in inbox && m.value.inboxSeq > floor && m.value.inboxSeq > ack
                            && forall x :: x in inbox && x.inboxSeq > floor && x.inboxSeq > ack ==>
                                 m.value.inboxSeq <= x.inboxSeq)
  {
    AboveInOrder(inbox, floor);
    AboveIs(inbox, floor);
    hide Above;
    hide Numbered;
    FirstIsOldest(Above(inbox, floor), ack);
    hide FirstPast;
  }

  lemma LastIsGreatest(inbox: seq<Message>, m: Message)
    requires Numbered(inbox) && m in inbox
    ensures m.inboxSeq <= LastSeq(inbox)
  {
    var i :| 0 <= i < |inbox| && inbox[i] == m;
  }

  lemma NumberedGrows(inbox: seq<Message>, m: Message)
    requires Numbered(inbox) && m.inboxSeq == LastSeq(inbox) + 1
    ensures Numbered(inbox + [m]) && LastSeq(inbox + [m]) == m.inboxSeq
  {
  }

  // ---- What every boot keeps ----

  /** `n` is confirmed at mark `floor`, or no later than any message held there. */
  ghost predicate Behind(inbox: seq<Message>, floor: nat, n: nat) {
    && n <= LastSeq(inbox)
    && (n <= floor || forall m :: m in inbox && m.inboxSeq > floor ==> n <= m.inboxSeq)
  }

  ghost predicate InboxOk(w: World) {
    && Numbered(w.inbox) && w.d.arrived == Above(w.inbox, w.bootFloor)
    && w.bootFloor <= w.floor <= LastSeq(w.inbox)
    && Behind(w.inbox, w.floor, w.g.dmAck)
    && (w.g.busy.Some? ==> Behind(w.inbox, w.floor, w.g.busy.value.inboxSeq))
    && (forall log, e :: log in w.past && e in log ==> Behind(w.inbox, w.bootFloor, e.inReplyTo))
  }

  ghost predicate Distinct(log: seq<Sent>) {
    forall i, j :: 0 <= i < j < |log| ==> log[i].inReplyTo != log[j].inReplyTo
  }

  ghost predicate ToSender(inbox: seq<Message>, e: Sent) {
    exists m :: m in inbox && m.inboxSeq == e.inReplyTo && m.sender == e.to
  }

  ghost predicate PastOk(w: World) {
    forall log :: log in w.past ==> Distinct(log) && forall e :: e in log ==> ToSender(w.inbox, e)
  }

  /** A number first thought under in this boot belongs to the message then being answered, or to none; the number
      under way belongs to the message in hand, or to none. */
  ghost predicate MindsOk(w: World) {
    && w.saved <= w.g.committed
    && w.d.thinks.Keys <= w.minds.Keys && w.bootThinks <= w.d.thinks.Keys
    && (forall k :: k in w.d.thinks && k !in w.bootThinks ==> MindOk(w.g, w.minds, k))
    && (forall e :: e in w.d.log ==> SentOk(w.d, w.bootThinks, w.minds, e))
  }

  ghost predicate MindOk(g: Genome, minds: map<nat, nat>, k: nat)
    requires k in minds
  {
    && k <= g.committed + 1
    && (k == g.committed + 1 ==> minds[k] == 0 || (g.busy.Some? && minds[k] == g.busy.value.inboxSeq))
  }

  ghost predicate SentOk(d: Daemon, bootThinks: set<nat>, minds: map<nat, nat>, e: Sent)
    requires d.thinks.Keys <= minds.Keys
  {
    && e.seqNo in d.thinks
    && (e.seqNo !in bootThinks ==> minds[e.seqNo] == 0 || minds[e.seqNo] == e.inReplyTo)
  }

  ghost predicate WorldOk(p: Params, w: World) {
    Inv(p, w.g, w.d) && InboxOk(w) && PastOk(w) && MindsOk(w)
  }

  lemma BehindRaised(inbox: seq<Message>, low: nat, high: nat, n: nat)
    requires Behind(inbox, low, n) && low <= high
    ensures Behind(inbox, high, n)
  {
  }

  lemma BehindGrows(inbox: seq<Message>, m: Message, floor: nat, n: nat)
    requires Behind(inbox, floor, n) && m.inboxSeq == LastSeq(inbox) + 1
    ensures Behind(inbox + [m], floor, n)
  {
  }

  lemma ComesKeeps(p: Params, w: World, sender: Str, text: Str)
    requires WorldOk(p, w)
    ensures WorldOk(p, Move1(p, w, Comes(sender, text)))
  {
    var m := Message(LastSeq(w.inbox) + 1, sender, text);
    ComesInv(p, w.g, w.d, m);
    ComesInbox(w, m);
    ComesPast(w, m);
    ComesMinds(w, m);
    hide Inv;
    hide InboxOk;
    hide PastOk;
    hide MindsOk;
  }

  function WithMessage(w: World, m: Message): World {
    w.(inbox := w.inbox + [m], d := w.d.(arrived := w.d.arrived + [m]))
  }

  lemma ComesInbox(w: World, m: Message)
    requires InboxOk(w) && m.inboxSeq == LastSeq(w.inbox) + 1
    ensures InboxOk(WithMessage(w, m))
  {
    NumberedGrows(w.inbox, m);
    AboveSnoc(w.inbox, m, w.bootFloor);
    hide Numbered;
    hide Above;
    hide LastSeq;
    BehindGrows(w.inbox, m, w.floor, w.g.dmAck);
    if w.g.busy.Some? {
      BehindGrows(w.inbox, m, w.floor, w.g.busy.value.inboxSeq);
    }
    forall log, e | log in w.past && e in log ensures Behind(w.inbox + [m], w.bootFloor, e.inReplyTo) {
      BehindGrows(w.inbox, m, w.bootFloor, e.inReplyTo);
    }
    hide Behind;
  }

  lemma ComesPast(w: World, m: Message)
    requires PastOk(w)
    ensures PastOk(WithMessage(w, m))
  {
    hide Distinct;
    forall log, e | log in w.past && e in log ensures ToSender(w.inbox + [m], e) {
      var x :| x in w.inbox && x.inboxSeq == e.inReplyTo && x.sender == e.to;
      assert x in w.inbox + [m];
    }
  }

  lemma ComesMinds(w: World, m: Message)
    requires MindsOk(w)
    ensures MindsOk(WithMessage(w, m))
  {
    var w' := WithMessage(w, m);
    forall e | e in w'.d.log ensures SentOk(w'.d, w'.bootThinks, w'.minds, e) {
      assert SentOk(w.d, w.bootThinks, w.minds, e);
    }
  }

  lemma ComesInv(p: Params, g: Genome, d: Daemon, m: Message)
    requires Inv(p, g, d)
    ensures Inv(p, g, d.(arrived := d.arrived + [m]))
  {
    var d' := d.(arrived := d.arrived + [m]);
    forall e | e in d'.log ensures RightRecipient(d', e) {
      var x :| x in d.arrived && x.inboxSeq == e.inReplyTo && x.sender == e.to;
      assert x in d'.arrived;
    }
  }

  /** A restart starts a boot with nothing in hand and nothing sent. */
  lemma RestartKeeps(p: Params, w: World)
    requires WorldOk(p, w)
    ensures WorldOk(p, Move1(p, w, Restart))
  {
    var w' := Move1(p, w, Restart);
    assert Inv(p, w'.g, w'.d);
    SentIsBehind(p, w);
    hide Inv;
    hide Above;
    hide Numbered;
    hide Distinct;
    hide ToSender;
    forall log, e | log in w'.past && e in log ensures Behind(w.inbox, w.floor, e.inReplyTo) {
      if log in w.past {
        BehindRaised(w.inbox, w.bootFloor, w.floor, e.inReplyTo);
      }
    }
  }

  /** What this boot has sent is behind the mark. */
  lemma SentIsBehind(p: Params, w: World)
    requires Inv(p, w.g, w.d) && InboxOk(w)
    ensures Distinct(w.d.log)
    ensures forall e :: e in w.d.log ==> ToSender(w.inbox, e) && Behind(w.inbox, w.floor, e.inReplyTo)
  {
    AboveIs(w.inbox, w.bootFloor);
    hide Above;
    hide Numbered;
    forall e | e in w.d.log ensures ToSender(w.inbox, e) && Behind(w.inbox, w.floor, e.inReplyTo) {
      assert DeliveryOk(p, w.g, w.d, e) && RightRecipient(w.d, e);
      var m :| m in w.d.arrived && m.inboxSeq == e.inReplyTo && m.sender == e.to;
      assert m in w.inbox;
    }
  }

  /** What a tick does to the ledger of thoughts, the log and the busy flag. */
  ghost predicate Thinks(g: Genome, d: Daemon, n: nat, conv: Option<Conversation>, g': Genome, d': Daemon) {
    && d.thinks.Keys <= d'.thinks.Keys <= d.thinks.Keys + {n}
    && g.committed <= g'.committed <= n && n == g.committed + 1
    && (g'.committed == g.committed ==> g'.busy == conv)
    && (d'.log == d.log || (n in d'.thinks && conv.Some? &&
          exists to, text :: d'.log == d.log + [Sent(n, to, text, conv.value.inboxSeq)]))
  }

  lemma TickThinks(p: Params, g: Genome, d: Daemon, env: TickEnv)
    requires !g.parked && Inv(p, g, d)
    ensures var (g', d') := Iterate(p, g, d, env);
            Thinks(g, d, g.committed + 1, TakeConversation(g, d, env), g', d')
  {
    IterateIs(p, g, d, env);
    NotTaken(g, d, env);
    assert KeysOk(p, d);
    hide Iterate;
    hide Inv;
    hide KeysOk;
    var n, taken := g.committed + 1, TakeConversation(g, d, env);
    hide TakeConversation;
    if taken.Some? {
      ReplyThinks(p, d, n, taken.value, g.history, env);
    } else {
      OrdinaryThinks(p, d, n, env);
    }
    hide ReplyTick;
    hide OrdinaryTick;
  }

  lemma NotTaken(g: Genome, d: Daemon, env: TickEnv)
    ensures TakeConversation(g, d, env).None? ==> g.busy.None?
  {
  }

  lemma ThinkAdds(d: Daemon, n: nat, turns: seq<Turn>, fate: ThinkFate)
    ensures var (d', r) := Think(d, n, turns, fate);
            && d.thinks.Keys <= d'.thinks.Keys <= d.thinks.Keys + {n} && d'.log == d.log && d'.sends == d.sends
            && (r.Thought? ==> n in d'.thinks)
  {
  }

  lemma SendAdds(d: Daemon, n: nat, to: Str, text: Str, inReplyTo: nat, fate: SendFate)
    ensures var d' := Send(d, n, to, text, inReplyTo, fate).0;
            d'.thinks == d.thinks && (d'.log == d.log || d'.log == d.log + [Sent(n, to, text, inReplyTo)])
  {
  }

  lemma ReplyThinks(p: Params, d: Daemon, n: nat, conv: Conversation, h: History, env: TickEnv)
    ensures var d' := ReplyTick(p, d, n, conv, h, env).0;
            && d.thinks.Keys <= d'.thinks.Keys <= d.thinks.Keys + {n}
            && (d'.log == d.log || (n in d'.thinks &&
                  exists to, text :: d'.log == d.log + [Sent(n, to, text, conv.inboxSeq)]))
  {
    hide LastN;
    hide Ring;
    var d0 := d.(asked := d.asked + [AskRead(n)]);
    var turns := LastN(Ring(h, conv.sender), if conv.readsUsed == 0 then p.historyWindow else p.historyMax);
    ThinkAdds(d0, n, turns, env.think);
    var (d1, thought) := Think(d0, n, turns, env.think);
    hide Think;
    if thought.Thought? && p.parse(thought.reply).DmReply? {
      SendAdds(d1, n, conv.sender, p.parse(thought.reply).text, conv.inboxSeq, env.send);
    }
    hide Send;
  }

  lemma OrdinaryThinks(p: Params, d: Daemon, n: nat, env: TickEnv)
    ensures var d' := OrdinaryTick(p, d, n, env).0;
            d.thinks.Keys <= d'.thinks.Keys <= d.thinks.Keys + {n} && d'.log == d.log
  {
    ThinkAdds(d.(asked := d.asked + [AskRead(n)]), n, [], env.think);
    hide Think;
  }

  lemma TickMinds(p: Params, w: World, env: TickEnv, pruned: bool, stored: bool)
    requires MindsOk(w) && Inv(p, w.g, w.d) && !w.g.parked
    ensures MindsOk(AfterTick(p, w, env, pruned, stored))
  {
    TickIsMinded(p, w, env, pruned, stored);
    hide AfterTick;
    hide Inv;
    KeepsMinds(w, TakeConversation(w.g, w.d, env), AfterTick(p, w, env, pruned, stored));
  }

  lemma TickIsMinded(p: Params, w: World, env: TickEnv, pruned: bool, stored: bool)
    requires w.saved <= w.g.committed && Inv(p, w.g, w.d) && !w.g.parked
    ensures var w' := AfterTick(p, w, env, pruned, stored);
            Minded(w, TakeConversation(w.g, w.d, env), w') && w'.saved <= w'.g.committed
  {
    hide *;
    TickThinks(p, w.g, w.d, env);
    HandIsKept(w.g, w.d, env);
    AfterTickIs(p, w, env, pruned, stored);
    var w' := AfterTick(p, w, env, pruned, stored);
    MakesMinded(w, TakeConversation(w.g, w.d, env), w');
    LivedCommits(p, w.g, w.d, env);
    NumberGrows(p, w.g, w.d, env);
  }

  lemma AfterTickIs(p: Params, w: World, env: TickEnv, pruned: bool, stored: bool)
    requires !w.g.parked
    ensures var n, taken := w.g.committed + 1, TakeConversation(w.g, w.d, env);
            var w' := AfterTick(p, w, env, pruned, stored);
            && (w'.g, w'.d) == Iterate(p, w.g, w.d, env) && w'.bootThinks == w.bootThinks
            && w'.minds == (if n in w'.d.thinks && n !in w.d.thinks
                            then w.minds[n := if taken.Some? then taken.value.inboxSeq else 0] else w.minds)
            && (w'.saved == w.saved || (w'.saved == n && Tick(p, w.g, w.d, n, env).2.Lived?))
  {
    hide Iterate;
    hide Tick;
    hide TakeConversation;
  }

  lemma MakesMinded(w: World, taken: Option<Conversation>, w': World)
    requires Thinks(w.g, w.d, w.g.committed + 1, taken, w'.g, w'.d) && (w.g.busy.Some? ==> taken == w.g.busy)
    requires var n := w.g.committed + 1;
             && w'.bootThinks == w.bootThinks
             && w'.minds == if n in w'.d.thinks && n !in w.d.thinks
                            then w.minds[n := if taken.Some? then taken.value.inboxSeq else 0] else w.minds
    ensures Minded(w, taken, w')
  {
    hide Thinks;
  }

  lemma NumberGrows(p: Params, g: Genome, d: Daemon, env: TickEnv)
    ensures g.committed <= Iterate(p, g, d, env).0.committed
  {
    hide Tick;
  }

  lemma KeepsMinds(w: World, taken: Option<Conversation>, w': World)
    requires MindsOk(w) && Minded(w, taken, w') && w'.saved <= w'.g.committed
    ensures MindsOk(w')
  {
    hide MindOk;
    hide SentOk;
    forall k | k in w'.d.thinks && k !in w'.bootThinks ensures k in w'.minds && MindOk(w'.g, w'.minds, k) {
      MindStays(w, taken, w', k);
    }
    forall e | e in w'.d.log ensures SentOk(w'.d, w'.bootThinks, w'.minds, e) {
      SentStays(w, taken, w', e);
    }
  }

  /** What a tick adds to `minds`. */
  ghost predicate Minded(w: World, taken: Option<Conversation>, w': World) {
    var n := w.g.committed + 1;
    && Thinks(w.g, w.d, n, taken, w'.g, w'.d) && (w.g.busy.Some? ==> taken == w.g.busy)
    && w'.bootThinks == w.bootThinks
    && w'.minds == if n in w'.d.thinks && n !in w.d.thinks
                   then w.minds[n := if taken.Some? then taken.value.inboxSeq else 0] else w.minds
  }

  lemma MindStays(w: World, taken: Option<Conversation>, w': World, k: nat)
    requires MindsOk(w) && Minded(w, taken, w') && k in w'.d.thinks && k !in w'.bootThinks
    ensures k in w'.minds && MindOk(w'.g, w'.minds, k)
  {
    hide SentOk;
    assert k in w.d.thinks ==> MindOk(w.g, w.minds, k);
  }

  lemma SentStays(w: World, taken: Option<Conversation>, w': World, e: Sent)
    requires MindsOk(w) && Minded(w, taken, w') && e in w'.d.log
    ensures w'.d.thinks.Keys <= w'.minds.Keys && SentOk(w'.d, w'.bootThinks, w'.minds, e)
  {
    var n := w.g.committed + 1;
    assert n in w.d.thinks && n !in w.bootThinks ==> MindOk(w.g, w.minds, n);
    assert e in w.d.log ==> SentOk(w.d, w.bootThinks, w.minds, e);
    assert e !in w.d.log ==> e.seqNo == n && taken.Some? && e.inReplyTo == taken.value.inboxSeq;
  }

  lemma LivedCommits(p: Params, g: Genome, d: Daemon, env: TickEnv)
    requires !g.parked
    ensures Tick(p, g, d, g.committed + 1, env).2.Lived? ==> Iterate(p, g, d, env).0.committed == g.committed + 1
  {
    hide Tick;
  }

  lemma HandIsKept(g: Genome, d: Daemon, env: TickEnv)
    ensures g.busy.Some? ==> TakeConversation(g, d, env) == g.busy
  {
  }

  lemma TickInbox(p: Params, w: World, env: TickEnv, pruned: bool, stored: bool)
    requires InboxOk(w) && Inv(p, w.g, w.d) && !w.g.parked
    ensures InboxOk(AfterTick(p, w, env, pruned, stored))
  {
    var w' := AfterTick(p, w, env, pruned, stored);
    var taken := TakeConversation(w.g, w.d, env);
    IterateIs(p, w.g, w.d, env);
    if taken.Some? {
      ReplyArrived(p, w.d, w.g.committed + 1, taken.value, w.g.history, env);
      TakenIsBehind(w, env, pruned);
    } else {
      OrdinaryArrived(p, w.d, w.g.committed + 1, env);
      NotTaken(w.g, w.d, env);
    }
    hide Inv;
    hide Iterate;
    hide Tick;
    hide ReplyTick;
    hide OrdinaryTick;
    hide TakeConversation;
    hide Above;
    hide Numbered;
    MarkStaysBelow(w);
    BehindRaised(w.inbox, w.floor, w'.floor, w.g.dmAck);
    hide Behind;
  }

  lemma MarkStaysBelow(w: World)
    requires InboxOk(w)
    ensures Max(w.floor, w.g.dmAck) <= LastSeq(w.inbox)
  {
  }

  /** The message in hand is the oldest one the daemon holds. */
  lemma TakenIsBehind(w: World, env: TickEnv, pruned: bool)
    requires InboxOk(w) && TakeConversation(w.g, w.d, env).Some?
    ensures var floor := if Confirms(w.g, env, pruned) then Max(w.floor, w.g.dmAck) else w.floor;
            Behind(w.inbox, floor, TakeConversation(w.g, w.d, env).value.inboxSeq)
  {
    if w.g.busy.None? {
      TakesLeast(w.inbox, w.bootFloor, w.g.dmAck);
      var m := FirstPast(w.d.arrived, w.g.dmAck).value;
      LastIsGreatest(w.inbox, m);
    }
    hide Numbered;
    hide Above;
  }

  lemma MoveKeeps(p: Params, w: World, move: Move)
    requires WorldOk(p, w)
    ensures WorldOk(p, Move1(p, w, move))
  {
    match move
    case Comes(sender, text) => ComesKeeps(p, w, sender, text);
    case Restart => RestartKeeps(p, w);
    case Ticks(env, pruned, stored) =>
      if !w.g.parked {
        IterateKeeps(p, w.g, w.d, env);
        hide Inv;
        hide Iterate;
        hide Tick;
        TickMinds(p, w, env, pruned, stored);
        TickInbox(p, w, env, pruned, stored);
        hide MindsOk;
        hide InboxOk;
      }
  }

  lemma {:induction false} ReachableOk(p: Params, moves: seq<Move>)
    ensures WorldOk(p, Moved(p, moves))
  {
    if moves == [] {
      FirstOk(p);
    } else {
      hide WorldOk;
      hide Move1;
      ReachableOk(p, moves[..|moves| - 1]);
      MoveKeeps(p, Moved(p, moves[..|moves| - 1]), moves[|moves| - 1]);
    }
  }

  lemma FirstOk(p: Params)
    ensures WorldOk(p, FIRST_WORLD)
  {
  }

  // ---- How often, and which ----

  function RepliesTo(log: seq<Sent>, n: nat): nat {
    if log == [] then 0
    else RepliesTo(log[..|log| - 1], n) + if log[|log| - 1].inReplyTo == n then 1 else 0
  }

  function RepliesIn(logs: seq<seq<Sent>>, n: nat): nat {
    if logs == [] then 0 else RepliesIn(logs[..|logs| - 1], n) + RepliesTo(logs[|logs| - 1], n)
  }

  lemma {:induction false} NoneOrOne(log: seq<Sent>, n: nat)
    requires Distinct(log)
    ensures RepliesTo(log, n) <= 1
    ensures RepliesTo(log, n) == 1 <==> exists e :: e in log && e.inReplyTo == n
  {
    if log != [] {
      var front, last := log[..|log| - 1], log[|log| - 1];
      assert log == front + [last];
      NoneOrOne(front, n);
    }
  }

  lemma {:induction false} OnePerBoot(logs: seq<seq<Sent>>, n: nat)
    requires forall log :: log in logs ==> Distinct(log)
    ensures RepliesIn(logs, n) <= |logs|
  {
    if logs != [] {
      OnePerBoot(logs[..|logs| - 1], n);
      NoneOrOne(logs[|logs| - 1], n);
    }
  }

  /** In every run, restarts included, a message gets at most one reply in each boot, and each reply goes to the one
      who sent the message. */
  lemma OneReplyPerBoot(p: Params, moves: seq<Move>, n: nat, log: seq<Sent>, e: Sent)
    requires var w := Moved(p, moves); log in w.past + [w.d.log] && e in log
    ensures var w := Moved(p, moves);
            && RepliesTo(log, n) <= 1 && RepliesIn(w.past + [w.d.log], n) <= |w.past| + 1
            && ToSender(w.inbox, e)
  {
    ReachableOk(p, moves);
    var w := Moved(p, moves);
    hide Moved;
    AboveIs(w.inbox, w.bootFloor);
    assert Distinct(w.d.log);
    NoneOrOne(log, n);
    OnePerBoot(w.past + [w.d.log], n);
    if e in w.d.log {
      assert RightRecipient(w.d, e);
      var m :| m in w.d.arrived && m.inboxSeq == e.inReplyTo && m.sender == e.to;
      assert m in w.inbox;
    }
  }

  /** A message answered in this boot and in an earlier one was the oldest the daemon held at the restart: so each
      restart can have at most one message answered again. */
  lemma OnlyTheOldestAgain(p: Params, moves: seq<Move>, log: seq<Sent>, before: Sent, again: Sent)
    requires var w := Moved(p, moves);
             && log in w.past && before in log && again in w.d.log && before.inReplyTo == again.inReplyTo
    ensures var w := Moved(p, moves);
            && Above(w.inbox, w.bootFloor) != []
            && Above(w.inbox, w.bootFloor)[0].inboxSeq == again.inReplyTo
  {
    ReachableOk(p, moves);
    var w := Moved(p, moves);
    hide Moved;
    AboveIs(w.inbox, w.bootFloor);
    assert RightRecipient(w.d, again);
    var m :| m in w.d.arrived && m.inboxSeq == again.inReplyTo && m.sender == again.to;
    assert Behind(w.inbox, w.bootFloor, before.inReplyTo);
    var held := Above(w.inbox, w.bootFloor);
    assert held[0] in held;
    TakesLeast(w.inbox, w.bootFloor, w.bootFloor);
    hide Above;
  }

  /** The first tick after a restart can answer the oldest message held, whether it was answered before or not, exactly
      when the number after the checkpoint has a free send key, and the thought kept under it, or if there is
      none some thought, is a reply. */
  lemma FirstTickAnswersIff(p: Params, w0: World)
    requires Above(w0.inbox, w0.floor) != []
    ensures var w, n := Move1(p, w0, Restart), w0.saved + 1;
            (exists env :: Iterate(p, w.g, w.d, env).1.log != []) <==>
            && n !in w0.d.sends
            && if n in w0.d.thinks then p.parse(w0.d.thinks[n]).DmReply?
               else exists reply :: p.parse(reply).DmReply?
  {
    var w := Move1(p, w0, Restart);
    AboveIs(w0.inbox, w0.floor);
    assert w.d.arrived[0] in w.d.arrived;
    FreshTick(p, w.g, w.d);
    SomeSends(p, w.d, w0.saved + 1);
    hide Iterate;
    hide Sends;
    hide Above;
  }

  lemma FreshTick(p: Params, g: Genome, d: Daemon)
    requires g == FRESH_GENOME.(committed := g.committed) && d.log == [] && d.arrived != [] && d.arrived[0].inboxSeq > 0
    ensures forall env :: Iterate(p, g, d, env).1.log != [] <==> env.pollOk && Sends(p, d, g.committed + 1, env)
  {
    var oldest, n := d.arrived[0], g.committed + 1;
    var conv := Conversation(oldest.sender, oldest.inboxSeq, oldest.text, 0);
    forall env ensures Iterate(p, g, d, env).1.log != [] <==> env.pollOk && Sends(p, d, n, env) {
      IterateIs(p, g, d, env);
      hide Iterate;
      if env.pollOk {
        ReplySends(p, d, n, conv, map[], env);
      } else {
        OrdinaryThinks(p, d, n, env);
      }
      hide ReplyTick;
      hide OrdinaryTick;
      hide Sends;
    }
    hide Iterate;
    hide Sends;
  }

  lemma ReplySends(p: Params, d: Daemon, n: nat, conv: Conversation, h: History, env: TickEnv)
    ensures ReplyTick(p, d, n, conv, h, env).0.log != d.log <==> Sends(p, d, n, env)
  {
    ReplyDisposes(p, d, n, conv, h, env);
    hide ReplyTick;
    hide Sends;
  }

  lemma SomeSends(p: Params, d: Daemon, n: nat)
    ensures (exists env: TickEnv :: env.pollOk && Sends(p, d, n, env)) <==>
            && n !in d.sends
            && if n in d.thinks then p.parse(d.thinks[n]).DmReply? else exists reply :: p.parse(reply).DmReply?
  {
    var reply :| n !in d.thinks && (exists r :: p.parse(r).DmReply?) ==> p.parse(reply).DmReply?;
    var env := TickEnv(true, ThinkReached(Performed(reply), false), SendReached(SendPerformed, false), false);
    assert n !in d.sends && (if n in d.thinks then p.parse(d.thinks[n]).DmReply? else p.parse(reply).DmReply?) ==>
        env.pollOk && Sends(p, d, n, env);
  }

  // ---- Which thought decided it ----

  /** In every run, a reply was decided by a thought first asked for that very message, unless an ordinary tick had
      already thought under its number and lost the answer, or an earlier boot had thought under it. */
  lemma DecidedForIt(p: Params, moves: seq<Move>, e: Sent)
    requires e in Moved(p, moves).d.log
    ensures var w := Moved(p, moves);
            && e.seqNo in w.minds
            && (w.minds[e.seqNo] == e.inReplyTo || w.minds[e.seqNo] == 0 || e.seqNo in w.bootThinks)
  {
    ReachableOk(p, moves);
    hide Moved;
    hide Inv;
    hide InboxOk;
    hide PastOk;
    assert SentOk(Moved(p, moves).d, Moved(p, moves).bootThinks, Moved(p, moves).minds, e);
  }

  // ---- Runs that restart ----

  lemma MovedSnoc(p: Params, moves: seq<Move>, move: Move)
    ensures Moved(p, moves + [move]) == Move1(p, Moved(p, moves), move)
  {
    hide Move1;
    assert (moves + [move])[..|moves|] == moves;
  }

  const ALICE: Str := [1]
  const BOB: Str := [2]
  const HELLO: Str := [9]

  /** Everything goes through, and the brain says HELLO. */
  const WELL := TickEnv(true, ThinkReached(Performed(HELLO), false), SendReached(SendPerformed, false), false)

  /** The send is denied. */
  const DENIED := WELL.(send := SendReached(SendDenied, false))

  /** The think does not get through. */
  const STALLED := WELL.(think := ThinkUnreached)

  /** The think is performed and its answer lost. */
  const UNHEARD := WELL.(think := ThinkReached(Performed(HELLO), true))

  /** A tick that takes `m`, thinks HELLO or is served it again, and sends it. */
  lemma Answers(w: World, m: Message)
    requires !w.g.parked && w.g.busy.None? && FirstPast(w.d.arrived, w.g.dmAck) == Some(m)
    requires var n := w.g.committed + 1; n !in w.d.sends && (n in w.d.thinks ==> w.d.thinks[n] == HELLO)
    ensures var n, w' := w.g.committed + 1, AfterTick(DmDelivery.ECHO, w, WELL, false, true);
            && w'.d.log == w.d.log + [Sent(n, m.sender, HELLO, m.inboxSeq)]
            && w'.saved == n && w'.floor == Max(w.floor, w.g.dmAck)
            && w'.inbox == w.inbox && w'.past == w.past
            && w'.minds == (if n in w.d.thinks then w.minds else w.minds[n := m.inboxSeq])
            && w'.d.sends == w.d.sends[n := true] && w'.d.thinks == w.d.thinks[n := HELLO]
  {
    hide LastN;
    hide Ring;
    hide Record;
  }

  /** The same, but the send is denied: the message is settled unanswered. */
  lemma Settles(w: World, m: Message)
    requires !w.g.parked && w.g.busy.None? && FirstPast(w.d.arrived, w.g.dmAck) == Some(m)
    requires var n := w.g.committed + 1; n !in w.d.sends && n !in w.d.thinks
    ensures var n, w' := w.g.committed + 1, AfterTick(DmDelivery.ECHO, w, DENIED, false, true);
            && w'.d == w.d.(asked := w'.d.asked, thinks := w.d.thinks[n := HELLO])
            && w'.g.busy.None? && w'.g.dmAck == m.inboxSeq && w'.g.committed == n && !w'.g.parked
            && w' == w.(g := w'.g, d := w'.d, floor := Max(w.floor, w.g.dmAck), minds := w.minds[n := m.inboxSeq])
  {
    hide LastN;
    hide Ring;
    hide Record;
  }

  /** The message is taken and its think does not get through. */
  lemma Stalls(w: World, m: Message)
    requires !w.g.parked && w.g.busy.None? && FirstPast(w.d.arrived, w.g.dmAck) == Some(m)
    ensures var w' := AfterTick(DmDelivery.ECHO, w, STALLED, false, true);
            && w'.d == w.d.(asked := w'.d.asked)
            && w' == w.(g := w'.g, d := w'.d, floor := Max(w.floor, w.g.dmAck))
  {
    hide LastN;
    hide Ring;
    hide Record;
  }

  /** With nothing to take, an ordinary tick performs its think and loses it. */
  lemma ThinksUnheard(w: World)
    requires !w.g.parked && w.g.busy.None? && FirstPast(w.d.arrived, w.g.dmAck).None?
    requires w.g.committed + 1 !in w.d.thinks
    ensures var n, w' := w.g.committed + 1, AfterTick(DmDelivery.ECHO, w, UNHEARD, false, true);
            && w'.d == w.d.(asked := w'.d.asked, thinks := w.d.thinks[n := HELLO])
            && w'.g == w.g && w'.minds == w.minds[n := 0] && w'.inbox == w.inbox && w'.past == w.past
  {
  }

  lemma MovedThree(p: Params, a: Move, b: Move, c: Move)
    ensures Moved(p, [a, b, c]) == Move1(p, Move1(p, Move1(p, FIRST_WORLD, a), b), c)
  {
    hide *;
    MovedNone(p);
    MovedSnoc(p, [], a);
    MovedSnoc(p, [a], b);
    MovedSnoc(p, [a, b], c);
    assert [] + [a] == [a] && [a] + [b] == [a, b] && [a, b] + [c] == [a, b, c];
  }

  lemma MovedNone(p: Params)
    ensures Moved(p, []) == FIRST_WORLD
  {
    hide FIRST_WORLD;
  }

  /** A concrete run in which one message is answered twice: its reply advanced the checkpoint, no poll confirmed it
      before the restart, and the next number has a fresh key. */
  lemma SomeRestartAnswersTwice() returns (moves: seq<Move>)
    ensures var w := Moved(DmDelivery.ECHO, moves);
            w.past == [[Sent(1, ALICE, HELLO, 1)]] && w.d.log == [Sent(2, ALICE, HELLO, 1)]
  {
    hide *;
    var first := [Comes(ALICE, []), Ticks(WELL, false, true), Restart];
    moves := first + [Ticks(WELL, false, true)];
    MovedThree(DmDelivery.ECHO, Comes(ALICE, []), Ticks(WELL, false, true), Restart);
    MovedSnoc(DmDelivery.ECHO, first, Ticks(WELL, false, true));
    AnsweredThenRestarted();
    RestartedTwice(Moved(DmDelivery.ECHO, first), Message(1, ALICE, []));
  }

  lemma ComesFirst(sender: Str)
    ensures var m := Message(1, sender, []);
            && Move1(DmDelivery.ECHO, FIRST_WORLD, Comes(sender, [])) ==
                 FIRST_WORLD.(inbox := [m], d := EMPTY_DAEMON.(arrived := [m]))
            && FirstPast([m], 0) == Some(m) && Above([m], 0) == [m]
  {
  }

  lemma AnsweredThenRestarted()
    ensures var p := DmDelivery.ECHO;
            var w := Move1(p, Move1(p, Move1(p, FIRST_WORLD, Comes(ALICE, [])), Ticks(WELL, false, true)), Restart);
            && !w.g.parked && w.g.busy.None? && FirstPast(w.d.arrived, w.g.dmAck) == Some(Message(1, ALICE, []))
            && w.g.committed == 1 && w.d.sends == map[1 := true] && w.d.thinks == map[1 := HELLO] && w.d.log == []
            && w.past == [[Sent(1, ALICE, HELLO, 1)]]
  {
    ComesFirst(ALICE);
    var w1 := Move1(DmDelivery.ECHO, FIRST_WORLD, Comes(ALICE, []));
    Answers(w1, Message(1, ALICE, []));
    var sent := Sent(1, ALICE, HELLO, 1);
    assert [] + [sent] == [sent] && [] + [[sent]] == [[sent]];
    hide AfterTick;
    hide Above;
    hide FirstPast;
  }

  lemma RestartedTwice(w: World, m: Message)
    requires !w.g.parked && w.g.busy.None? && FirstPast(w.d.arrived, w.g.dmAck) == Some(m)
    requires w.g.committed == 1 && w.d.sends == map[1 := true] && w.d.thinks == map[1 := HELLO] && w.d.log == []
    ensures var w' := Move1(DmDelivery.ECHO, w, Ticks(WELL, false, true));
            w'.d.log == [Sent(2, m.sender, HELLO, m.inboxSeq)] && w'.past == w.past
  {
    Answers(w, m);
    hide AfterTick;
  }

  /** A concrete run in which one sender gets the reply thought for another: the send to the first was denied, so no
      checkpoint covered its number, and the restart reused it. */
  lemma SomeRestartReusesAThought() returns (moves: seq<Move>)
    ensures var w := Moved(DmDelivery.ECHO, moves);
            && w.inbox == [Message(1, ALICE, []), Message(2, BOB, [])]
            && w.d.log == [Sent(1, BOB, HELLO, 2)] && w.minds == map[1 := 1]
  {
    hide *;
    var p := DmDelivery.ECHO;
    var m3 := [Comes(ALICE, []), Ticks(DENIED, false, true), Comes(BOB, [])];
    var m4 := m3 + [Ticks(STALLED, false, true)];
    var m5 := m4 + [Restart];
    moves := m5 + [Ticks(WELL, false, true)];
    MovedThree(p, Comes(ALICE, []), Ticks(DENIED, false, true), Comes(BOB, []));
    MovedSnoc(p, m3, Ticks(STALLED, false, true));
    MovedSnoc(p, m4, Restart);
    MovedSnoc(p, m5, Ticks(WELL, false, true));
    DeniedThenBob();
    ReusesAfterRestart(Moved(p, m3), Message(1, ALICE, []), Message(2, BOB, []));
  }

  lemma DeniedThenBob()
    ensures var p := DmDelivery.ECHO;
            var w := Move1(p, Move1(p, Move1(p, FIRST_WORLD, Comes(ALICE, [])), Ticks(DENIED, false, true)),
                           Comes(BOB, []));
            && !w.g.parked && w.g.busy.None? && w.g.dmAck == 1 && w.saved == 0 && w.floor == 0
            && w.inbox == w.d.arrived == [Message(1, ALICE, []), Message(2, BOB, [])]
            && w.d.thinks == map[1 := HELLO] && w.d.sends == map[] && w.minds == map[1 := 1] && w.d.log == []
  {
    var a, b := Message(1, ALICE, []), Message(2, BOB, []);
    ComesFirst(ALICE);
    Settles(Move1(DmDelivery.ECHO, FIRST_WORLD, Comes(ALICE, [])), a);
    hide AfterTick;
    hide FirstPast;
    hide Above;
    assert [a] + [b] == [a, b];
  }

  lemma ReusesAfterRestart(w: World, a: Message, b: Message)
    requires a.inboxSeq == 1 && b.inboxSeq == 2
    requires !w.g.parked && w.g.busy.None? && w.g.dmAck == 1 && w.saved == 0 && w.floor == 0
    requires w.inbox == [a, b] && w.d.arrived == [a, b] && w.d.thinks == map[1 := HELLO] && w.d.sends == map[]
    requires w.minds == map[1 := 1] && w.d.log == []
    ensures var p := DmDelivery.ECHO;
            var w' := Move1(p, Move1(p, Move1(p, w, Ticks(STALLED, false, true)), Restart), Ticks(WELL, false, true));
            && w'.d.log == [Sent(1, b.sender, HELLO, 2)] && w'.minds == w.minds && w'.inbox == w.inbox
  {
    assert [a, b][1..] == [b];
    assert FirstPast([b], 1) == Some(b) && FirstPast([b], 0) == Some(b);
    assert FirstPast([a, b], 1) == Some(b);
    assert Above([b], 1) == [b];
    assert Above([a, b], 1) == [b];
    hide AfterTick;
    hide Above;
    hide FirstPast;
    var p := DmDelivery.ECHO;
    Stalls(w, b);
    Answers(Move1(p, Move1(p, w, Ticks(STALLED, false, true)), Restart), b);
  }

  /** A concrete run without a restart in which a message is answered by a thought that was performed before the message
      came: an ordinary tick lost its thought, and the message was taken under the same number. */
  lemma SomeThoughtComesFirst() returns (moves: seq<Move>)
    ensures var w := Moved(DmDelivery.ECHO, moves);
            w.past == [] && w.d.log == [Sent(1, BOB, HELLO, 1)] && w.minds == map[1 := 0]
  {
    hide *;
    moves := [Ticks(UNHEARD, false, true), Comes(BOB, []), Ticks(WELL, false, true)];
    MovedThree(DmDelivery.ECHO, Ticks(UNHEARD, false, true), Comes(BOB, []), Ticks(WELL, false, true));
    ThoughtThenBob();
  }

  lemma ThoughtThenBob()
    ensures var p := DmDelivery.ECHO;
            var w := Move1(p, Move1(p, Move1(p, FIRST_WORLD, Ticks(UNHEARD, false, true)), Comes(BOB, [])),
                           Ticks(WELL, false, true));
            w.past == [] && w.d.log == [Sent(1, BOB, HELLO, 1)] && w.minds == map[1 := 0]
  {
    var b := Message(1, BOB, []);
    ComesFirst(BOB);
    assert FirstPast([], 0).None?;
    ThinksUnheard(FIRST_WORLD);
    hide AfterTick;
    hide FirstPast;
    var w2 := Move1(DmDelivery.ECHO, Move1(DmDelivery.ECHO, FIRST_WORLD, Ticks(UNHEARD, false, true)), Comes(BOB, []));
    assert w2.d.arrived == [b];
    Answers(w2, b);
  }
}
