/** The private-message arm as the code runs it: a history object with bounded rings, and a loop whose
    busy flag, cursor and history are updated in place. */
module DmLoop {
  import opened Bytes
  import opened DmModel

  /** Per-sender rings of turns. */
  class DmHistory {
    var bySender: map<Str, seq<Turn>>

    constructor ()
      ensures bySender == map[]
    {
      bySender := map[];
    }

    /** Push both turns, then drop from the front while the ring is too long. */
    method RecordExchange(sender: Str, message: Str, reply: Str, max: nat)
      modifies this
      ensures bySender == Record(old(bySender), sender, message, reply, max)
    {
      if max == 0 {
        return;
      }
      ghost var pushed := Ring(bySender, sender) + [Them(message), Me(reply)];
      var ring := if sender in bySender then bySender[sender] else [];
      ring := ring + [Them(message)];
      ring := ring + [Me(reply)];
      assert ring == pushed;
      ghost var dropped := 0;
      while |ring| > max
        invariant dropped <= |pushed| && ring == pushed[dropped..]
        invariant dropped > 0 ==> |ring| >= max
      {
        ring := ring[1..];
        dropped := dropped + 1;
      }
      bySender := bySender[sender := ring];
    }

    /** The most recent `window` turns, oldest first. */
    method Window(sender: Str, window: nat) returns (turns: seq<Turn>)
      ensures turns == LastN(Ring(bySender, sender), window)
    {
      if sender !in bySender {
        return [];
      }
      var ring := bySender[sender];
      var skip := if |ring| < window then 0 else |ring| - window;
      return ring[skip..];
    }
  }

  class Gateway {
    var daemon: Daemon

    method Ask(call: Call)
      modifies this
      ensures daemon == old(daemon).(asked := old(daemon).asked + [call])
    {
      daemon := daemon.(asked := daemon.asked + [call]);
    }

    method Complete(seqNo: nat, turns: seq<Turn>, fate: ThinkFate) returns (r: ThinkResult)
      modifies this
      ensures (daemon, r) == Think(old(daemon), seqNo, turns, fate)
    {
      var (d, result) := Think(daemon, seqNo, turns, fate);
      daemon, r := d, result;
    }

    method DmReply(seqNo: nat, to: Str, text: Str, inReplyTo: nat, fate: SendFate) returns (r: SendResult)
      modifies this
      ensures (daemon, r) == Send(old(daemon), seqNo, to, text, inReplyTo, fate)
    {
      var (d, result) := Send(daemon, seqNo, to, text, inReplyTo, fate);
      daemon, r := d, result;
    }
  }

  class Capable {
    const params: Params
    const gw: Gateway
    const dmHistory: DmHistory
    var committed: nat
    var busy: Option<Conversation>
    var dmAckSeq: nat
    var parked: bool
    ghost var exchanges: seq<Exchange>

    ghost function View(): Genome
      reads this, dmHistory
    {
      Genome(committed, busy, dmAckSeq, dmHistory.bySender, parked, exchanges)
    }

    constructor (params: Params, gw: Gateway, dmHistory: DmHistory)
      requires dmHistory.bySender == map[]
      ensures this.params == params && this.gw == gw && this.dmHistory == dmHistory && View() == FRESH_GENOME
    {
      this.params, this.gw, this.dmHistory := params, gw, dmHistory;
      committed, busy, dmAckSeq, parked := 0, None, 0, false;
      exchanges := [];
    }

    method DmReplyTick(seqNo: nat, conv: Conversation, env: TickEnv) returns (o: Outcome)
      modifies gw
      ensures (gw.daemon, o) == ReplyTick(params, old(gw.daemon), seqNo, conv, dmHistory.bySender, env)
    {
      gw.Ask(AskRead(seqNo));
      var window := if conv.readsUsed == 0 then params.historyWindow else params.historyMax;
      var turns := dmHistory.Window(conv.sender, window);
      var thought := gw.Complete(seqNo, turns, env.think);
      match thought
      case ThinkFailed => return Transient;
      case ThinkDenied => return Dead;
      case Thought(reply) =>
        var action := params.parse(reply);
        if action.DmReply? {
          var sent := gw.DmReply(seqNo, conv.sender, action.text, conv.inboxSeq, env.send);
          return if sent.SendLost? then Transient else Lived(sent.recordedWrite, action);
        }
        if action.ReadMore? && conv.readsUsed < params.maxReads {
          return Widened;
        }
        return Lived(false, action);
    }

    method CapableTick(seqNo: nat, env: TickEnv) returns (o: Outcome)
      modifies gw
      ensures (gw.daemon, o) == OrdinaryTick(params, old(gw.daemon), seqNo, env)
    {
      gw.Ask(AskRead(seqNo));
      var thought := gw.Complete(seqNo, [], env.think);
      match thought
      case ThinkFailed => return Transient;
      case ThinkDenied => return Dead;
      case Thought(reply) =>
        var action := params.parse(reply);
        match action
        case Remember =>
          gw.Ask(AskWrite(seqNo));
          return Lived(!env.actLost, action);
        case Post =>
          gw.Ask(AskPost(seqNo));
          return if env.actLost then Transient else Lived(true, action);
        case Fetch =>
          gw.Ask(AskFetch(seqNo));
          return if env.actLost then Transient else Lived(false, action);
        case _ => return Lived(false, action);
    }

    /** One tick: take a conversation if idle, answer it or tick as usual, then settle. */
    method TickWithInbox(seqNo: nat, env: TickEnv) returns (o: Outcome)
      modifies this, gw, dmHistory
      ensures (View(), gw.daemon, o) == Tick(params, old(View()), old(gw.daemon), seqNo, env)
    {
      if busy.None? && env.pollOk {
        var m := FirstPast(gw.daemon.arrived, dmAckSeq);
        if m.Some? {
          busy := Some(Conversation(m.value.sender, m.value.inboxSeq, m.value.text, 0));
        }
      }
      if busy.None? {
        o := CapableTick(seqNo, env);
        return;
      }
      var conv := busy.value;
      o := DmReplyTick(seqNo, conv, env);
      match o
      case Lived(recordedWrite, action) =>
        if recordedWrite && action.DmReply? {
          dmHistory.RecordExchange(conv.sender, conv.message, action.text, params.historyMax);
          exchanges := exchanges + [Exchange(conv.sender, conv.message, action.text, seqNo)];
        }
        dmAckSeq := conv.inboxSeq;
        busy := None;
      case Widened =>
        busy := Some(conv.(readsUsed := conv.readsUsed + 1));
      case _ =>
    }

    method LoopOnce(env: TickEnv)
      modifies this, gw, dmHistory
      ensures (View(), gw.daemon) == Iterate(params, old(View()), old(gw.daemon), env)
    {
      if parked {
        return;
      }
      var seqNo := committed + 1;
      var o := TickWithInbox(seqNo, env);
      if !o.Transient? {
        committed := seqNo;
      }
      parked := o.Dead?;
    }
  }
}
