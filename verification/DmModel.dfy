/** The private-message arm of the capable loop, as a function: one conversation at a time, a bounded
    number of history widenings, and a bounded ring of turns per sender. */
module DmModel {
  import opened Bytes

  // ---- Values ----

  /** A parsed plan. `Quiet` stands for the plans that never act: NOTE, RECALL, INVALID, EARN_CHARGE. */
  datatype Action = DmReply(text: Str) | ReadMore | Remember | Post | Fetch | Quiet

  datatype Turn = Them(text: Str) | Me(text: Str)

  datatype Message = Message(inboxSeq: nat, sender: Str, text: Str)

  datatype Conversation = Conversation(sender: Str, inboxSeq: nat, message: Str, readsUsed: nat)

  datatype Params = Params(parse: Str -> Action, historyWindow: nat, historyMax: nat, maxReads: nat)

  /** One confirmed exchange, and the tick number it went out under. */
  datatype Exchange = Exchange(sender: Str, message: Str, reply: Str, seqNo: nat)

  // ---- The daemon ----

  datatype Call =
    | AskRead(seqNo: nat)
    | AskThink(seqNo: nat, turns: seq<Turn>)
    | AskDm(seqNo: nat, to: Str, text: Str)
    | AskWrite(seqNo: nat)
    | AskPost(seqNo: nat)
    | AskFetch(seqNo: nat)

  /** A DM that really went out, for the inbound message numbered `inReplyTo`. */
  datatype Sent = Sent(seqNo: nat, to: Str, text: Str, inReplyTo: nat)

  /** `thinks` and `sends` are the idempotency ledgers: the completion of each performed think, and for
      each burned send key whether the message was published. */
  datatype Daemon = Daemon(arrived: seq<Message>, thinks: map<nat, Str>, sends: map<nat, bool>, asked: seq<Call>,
      log: seq<Sent>)

  // ---- The environment's choices for one tick ----

  datatype ThinkOutcome = Performed(reply: Str) | Broke | Hiccup

  datatype ThinkFate = ThinkUnreached | ThinkReached(outcome: ThinkOutcome, lost: bool)

  datatype SendVerdict = SendPerformed | SendDenied | SendUpstreamFailed

  datatype SendFate = SendUnreached | SendReached(verdict: SendVerdict, lost: bool)

  datatype TickEnv = TickEnv(pollOk: bool, think: ThinkFate, send: SendFate, actLost: bool)

  // ---- Daemon operations ----

  datatype ThinkResult = ThinkFailed | ThinkDenied | Thought(reply: Str)

  /** A think under a performed key re-serves the stored completion. */
  function Think(d: Daemon, seqNo: nat, turns: seq<Turn>, fate: ThinkFate): (Daemon, ThinkResult) {
    var d0 := d.(asked := d.asked + [AskThink(seqNo, turns)]);
    match fate
    case ThinkUnreached => (d0, ThinkFailed)
    case ThinkReached(outcome, lost) =>
      if seqNo in d.thinks then (d0, if lost then ThinkFailed else Thought(d.thinks[seqNo]))
      else
        match outcome
        case Performed(reply) => (d0.(thinks := d.thinks[seqNo := reply]), if lost then ThinkFailed else Thought(reply))
        case Broke => (d0, if lost then ThinkFailed else ThinkDenied)
        case Hiccup => (d0, ThinkFailed)
  }

  datatype SendResult = SendLost | SendDone(recordedWrite: bool)

  /** A send under a burned key publishes nothing and answers as a duplicate; a rejection by the relay
      burns the key as a publication does. */
  function Send(d: Daemon, seqNo: nat, to: Str, text: Str, inReplyTo: nat, fate: SendFate): (Daemon, SendResult) {
    var d0 := d.(asked := d.asked + [AskDm(seqNo, to, text)]);
    match fate
    case SendUnreached => (d0, SendLost)
    case SendReached(verdict, lost) =>
      var duplicate := seqNo in d.sends;
      var d1 :=
        if duplicate || verdict == SendDenied then d0
        else if verdict == SendPerformed
        then d0.(sends := d.sends[seqNo := true], log := d.log + [Sent(seqNo, to, text, inReplyTo)])
        else d0.(sends := d.sends[seqNo := false]);
      (d1, if lost then SendLost else SendDone(duplicate || verdict == SendPerformed))
  }

  /** The oldest message past the cursor. */
  function FirstPast(arrived: seq<Message>, ack: nat): (r: Option<Message>)
    ensures r.Some? ==> r.value in arrived && r.value.inboxSeq > ack
  {
    if arrived == [] then None
    else if arrived[0].inboxSeq > ack then Some(arrived[0])
    else FirstPast(arrived[1..], ack)
  }

  // ---- History ----

  type History = map<Str, seq<Turn>>

  function LastN<T>(s: seq<T>, n: nat): (r: seq<T>)
    ensures |r| == if |s| <= n then |s| else n
  {
    if |s| <= n then s else s[|s| - n..]
  }

  function Ring(h: History, sender: Str): seq<Turn> {
    if sender in h then h[sender] else []
  }

  /** The two turns of an exchange join the sender's ring, the oldest leave it. */
  function Record(h: History, sender: Str, message: Str, reply: Str, max: nat): History {
    if max == 0 then h else h[sender := LastN(Ring(h, sender) + [Them(message), Me(reply)], max)]
  }

  // ---- The tick ----

  datatype Outcome = Lived(recordedWrite: bool, action: Action) | Widened | Dead | Transient

  datatype Genome = Genome(
    committed: nat,
    busy: Option<Conversation>,
    dmAck: nat,
    history: History,
    parked: bool,
    exchanges: seq<Exchange>)

  const FRESH_GENOME := Genome(0, None, 0, map[], false, [])

  /** One thought on the conversation, and at most one reply, to its sender. Any other plan acts on
      nothing and settles the conversation. */
  function ReplyTick(p: Params, d: Daemon, seqNo: nat, conv: Conversation, h: History, env: TickEnv): (Daemon,
        Outcome) {
    var d0 := d.(asked := d.asked + [AskRead(seqNo)]);
    var turns := LastN(Ring(h, conv.sender), if conv.readsUsed == 0 then p.historyWindow else p.historyMax);
    var (d1, thought) := Think(d0, seqNo, turns, env.think);
    match thought
    case ThinkFailed => (d1, Transient)
    case ThinkDenied => (d1, Dead)
    case Thought(reply) =>
      match p.parse(reply)
      case DmReply(text) =>
        var (d2, sent) := Send(d1, seqNo, conv.sender, text, conv.inboxSeq, env.send);
        (d2, if sent.SendLost? then Transient else Lived(sent.recordedWrite, DmReply(text)))
      case ReadMore => (d1, if conv.readsUsed < p.maxReads then Widened else Lived(false, ReadMore))
      case other => (d1, Lived(false, other))
  }

  /** The ordinary tick: think, then at most one act of its own. */
  function OrdinaryTick(p: Params, d: Daemon, seqNo: nat, env: TickEnv): (Daemon, Outcome) {
    var d0 := d.(asked := d.asked + [AskRead(seqNo)]);
    var (d1, thought) := Think(d0, seqNo, [], env.think);
    match thought
    case ThinkFailed => (d1, Transient)
    case ThinkDenied => (d1, Dead)
    case Thought(reply) =>
      match p.parse(reply)
      case Remember => (d1.(asked := d1.asked + [AskWrite(seqNo)]), Lived(!env.actLost, Remember))
      case Post => (d1.(asked := d1.asked + [AskPost(seqNo)]), if env.actLost then Transient else Lived(true, Post))
      case Fetch => (d1.(asked := d1.asked + [AskFetch(seqNo)]), if env.actLost then Transient else Lived(false, Fetch))
      case other => (d1, Lived(false, other))
  }

  /** Take a conversation when idle; a soft poll error reads as an empty inbox. */
  function TakeConversation(g: Genome, d: Daemon, env: TickEnv): Option<Conversation> {
    if g.busy.Some? then g.busy
    else if !env.pollOk then None
    else
      var m := FirstPast(d.arrived, g.dmAck);
      if m.None? then None else Some(Conversation(m.value.sender, m.value.inboxSeq, m.value.text, 0))
  }

  /** A settled conversation frees the flag and moves the cursor past its message; a confirmed reply is
      filed under its sender. A widening only counts; a transient keeps everything. */
  function Settle(p: Params, g: Genome, conv: Conversation, seqNo: nat, o: Outcome): Genome {
    match o
    case Lived(recordedWrite, action) =>
      var g1 := g.(busy := None, dmAck := conv.inboxSeq);
      if recordedWrite && action.DmReply? then
        g1.(history := Record(g.history, conv.sender, conv.message, action.text, p.historyMax),
            exchanges := g.exchanges + [Exchange(conv.sender, conv.message, action.text, seqNo)])
      else g1
    case Widened => g.(busy := Some(conv.(readsUsed := conv.readsUsed + 1)))
    case _ => g.(busy := Some(conv))
  }

  function Tick(p: Params, g: Genome, d: Daemon, seqNo: nat, env: TickEnv): (Genome, Daemon, Outcome) {
    var taken := TakeConversation(g, d, env);
    match taken
    case None =>
      var (d', o) := OrdinaryTick(p, d, seqNo, env);
      (g, d', o)
    case Some(conv) =>
      var (d', o) := ReplyTick(p, d, seqNo, conv, g.history, env);
      (Settle(p, g, conv, seqNo, o), d', o)
  }

  function Iterate(p: Params, g: Genome, d: Daemon, env: TickEnv): (Genome, Daemon) {
    if g.parked then (g, d)
    else
      var (g', d', o) := Tick(p, g, d, g.committed + 1, env);
      (g'.(committed := if o.Transient? then g.committed else g.committed + 1, parked := o.Dead?), d')
  }

  // ---- Runs ----

  datatype Input = Arrive(sender: Str, text: Str) | Run(env: TickEnv)

  const EMPTY_DAEMON := Daemon([], map[], map[], [], [])

  function LastSeq(arrived: seq<Message>): nat {
    if arrived == [] then 0 else arrived[|arrived| - 1].inboxSeq
  }

  function Step(p: Params, g: Genome, d: Daemon, input: Input): (Genome, Daemon) {
    match input
    case Arrive(sender, text) => (g, d.(arrived := d.arrived + [Message(LastSeq(d.arrived) + 1, sender, text)]))
    case Run(env) => Iterate(p, g, d, env)
  }

  function After(p: Params, inputs: seq<Input>): (Genome, Daemon) {
    if inputs == [] then (FRESH_GENOME, EMPTY_DAEMON)
    else
      var (g, d) := After(p, inputs[..|inputs| - 1]);
      Step(p, g, d, inputs[|inputs| - 1])
  }
}
