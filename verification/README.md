# Kirby verification model

A Dafny model of the deciding logic of Kirby, a sovereign paid agent: the oracle that is paid before it answers, the
private-message conversation machine, threshold ECDH over a FROST key, the fleet allocator, the failover detector,
SHA-256 and the charge key built on it, and the smaller guards around them. Networks, relays, the daemon's ledger, the
curve library and the clock are an explicit environment: every call may be refused, may fail, or may take effect and
lose its answer. `dafny verify dfyconfig.toml` verifies everything.

Code that updates state in place is modelled by classes and methods with loops (`OracleLoop`, `DmLoop`, `Fleet`,
`Failover`, `Sha256`, `Egress`, `Ceremony`, `Blanker`, the loops of `Ecdh`). Where runs are reasoned about, each method
is proved equal to a function of the old state, and the theorems about all runs are lemmas about that function.

## What the theorems say

- **Oracle** (`OracleModel`, `OracleLoop`, `OracleSafety`, `OracleAnswers`, `OracleAtMostOnce`, `OracleSecondAnswer`,
  `OraclePayments`, `OracleLostAnswers`, `OracleQuotes`, `OracleDisposition`, `OraclePoison`, `OracleProgress`,
  `OracleOverflow`). A run is any list of arrivals, ticks with arbitrary failures and lost responses, and reboots. Each
  attestation is paid for and goes to the customer who armed the charge.
  - `AnsweredWasQuoted` follows an attestation back: its recipient sent a price request, the brain quoted for it in an
    earlier tick, and the tick that delivers polled a settlement of the charge agreed on then, at no less than the quote.
    `AttestsWhatFeedsSaid` follows its prices back: a tick that polled a settlement of its charge fetched each of them,
    the first that a feed gave under a key not used before, and the sources are exactly the feeds that gave one.
  - `OracleDisposition` says what a tick does with the event it polls, in all cases. An underpaid charge is forfeited: in
    no run is it answered before it is armed again (`ForfeitedUntilArmedAgain`).
  - Each arming is answered at most once, provided no poll fails softly between a transient tick and its retry. The
    documentation of the tick claims this without the proviso. `AtMostOnceFailsIff` says of any run whether it fails
    and where; `NextAnswerIff` decides it for any given stretch of inputs after an answer whose reply was lost; and
    `SecondAnswerIff` says that some stretch leads to a second answer exactly when a later tick number within the
    TTL, not only the next, has a free key. `SomeRunAnswersTwice` is such a run.
  - In a steady run one payment buys at most one answer (`OneAnswerPerPayment`), and in any run it buys a second one in
    exactly the ticks in which an arming is answered twice (`PaysAgainIff`). It may buy none: a settlement counted as
    sent delivered nothing when its key was already burned. `LostAnswerIff` says for every boot when that leaves the
    charge unanswered: the key was burned by an earlier boot, since a reboot restarts the tick numbers while the ledger
    keeps its keys, or an earlier try of that settlement under that number was rejected upstream and the rejection
    was lost. `SomeRebootLosesAPaidAnswer` is a run of the first kind and `SomeSteadyRunLosesAPaidAnswer`, with no
    reboot and no failed poll, of the second.
  - The inbox is a bounded queue that drops its oldest event (`OracleOverflow`). `ArrivalLosesIff` says exactly which
    arrival loses an unhandled event. What each answer rests on survives any drop; at most one answer per arming and
    per payment survives as long as no drop takes the event under retry, and `SomeDropAnswersTwice` shows that this is
    needed. The other run theorems are about an inbox that does not overflow (`NeverFullIsUnbounded`).
  - A price request has five tries of its own: one whose think fails is dropped exactly at its fifth failure with no
    performed think and no reboot between, whatever came before it (`DropsAtTheFifth`).
  - Events are consumed in order. `HeadKeptIff` says exactly when a tick keeps the head of the inbox; only the think is
    bounded. While the DM of a paid answer, the percept or DM of a self-report, a charge call or its invoice never gets
    through, the head and all behind it wait without bound (`OutageHolds`), unless the queue overflows; with only the
    think failing, n waiting events drain within 5n ticks or the agent parks (`InboxDrains`).
- **Private messages** (`DmModel`, `DmLoop`, `DmTheorems`, `DmDisposition`, `DmDelivery`, `DmRestarts`). Whatever the
  brain replies, a conversation reads, thinks, and sends at most one reply to its sender, and settles. `TickDisposes`
  says what each of its ticks does: which thoughts widen the history, park, retry, file, deliver or settle. The comment
  on `record_exchange` says history holds only replies that went out; `PhantomIff` says exactly when that fails (the
  relay rejected the reply and the rejection was lost, so the retry is answered as a duplicate) and
  `SomeRunFilesAPhantom` is such a run. Across restarts a message gets at most one reply per boot, and only the oldest
  message held at a restart can be answered again (`OneReplyPerBoot`, `OnlyTheOldestAgain`, `SomeRestartAnswersTwice`).
  Thoughts are kept by tick number alone: `DecidedForIt` says that a reply was thought for its own message unless the
  number had been thought under by an ordinary tick or an earlier boot, and two concrete runs show both exceptions.
- **Threshold ECDH** (`PrimeField`, `Ecdh`, `EcdhTheorems`). Lagrange interpolation is proved for every prime, every
  threshold and every set of nodes; an accepted quorum computes the secret times the peer point, for the plain and the
  taproot-tweaked identity, and the peer derives the same x-coordinate. The exact success condition of both is proved.
- **Fleet** (`Fleet`, `FleetReload`). Across failing writes, crashes and reloads no two live tenants share a CID,
  whatever configuration each reload reads, and none share a port as long as `gateway_port_base - base_cid` stays the
  same. `CollideIff` gives the exact condition for any two configurations: some run under the two puts two tenants on
  one port exactly when that difference changes and both pools have the room.
- **Failover** (`Failover`). A takeover is ordered exactly when the observed leases of the whole history call for it
  (`VerdictIff`, stated in the leases' times alone); the grace map is exactly the unbroken streaks behind it.
- **SHA-256** (`Sha256Constants`, `Sha256`, `Sha256Bits`, `Sha256Abc`, `Fingerprint`, `ChargeIdentity`). The in-place
  hasher equals the recursive definition of sections 5.1.1 and 6.2.2 of FIPS 180-4, on 32-bit words. Its constants are
  proved to be the roots that sections 4.2.2 and 5.3.3 call for, of what is proved to be the first sixty-four primes;
  its six functions are described bit by bit; and the digest of "abc" is proved to be the published one. Two requests
  with one charge key, or two births with one fingerprint, have encodings that collide under the hash.
- **Blanker** (`Blanker`, `BlankerTokens`). The source blanker keeps length, and blanking twice is blanking once;
  `FailsIff` says exactly when the original raises an index error instead. Where tokens end is stated in terms of the
  text alone: nested comments at the balance of their markers, strings at the first quote that is not escaped. One text
  of each kind is blanked in full.
- **Smaller guards**: the price median (`Median`), the rate and cost bounds of web access (`Egress`), the signing
  ceremony over mailboxes (`Ceremony`), the memory frame and last-writer-wins reconcile (`Engram`), the canonical note
  form (`Notes`).

## Model

| member | source | states |
|---|---|---|
| OracleLoop.Oracle.OldestOf | crates/kirby-genome/src/capable.rs:3118-3128 | the single pass over a batch yields its first event of least inbox number |
| OracleLoop.Oracle.PollOneOracleEvent | crates/kirby-genome/src/capable.rs:3098-3128 | a poll takes the oldest wanted event past the cursor; a soft error reads as an empty inbox |
| OracleLoop.Oracle.BuildOracleAnswer | crates/kirby-genome/src/capable.rs:2955-3037 | three feeds, two tries each under distinct keys, assembled into one attestation |
| OracleLoop.Oracle.Settle | crates/kirby-genome/src/capable.rs:3223-3362 | the settlement branch: every rejection consumes, a lost DM caches the answer and stays |
| OracleLoop.Oracle.ReportBooks | crates/kirby-genome/src/capable.rs:3368-3407 | the free self-report, transient when the percept or the DM is lost |
| OracleLoop.Oracle.ThinkFailed | crates/kirby-genome/src/capable.rs:2383-2409 | the bounded retry of a transient think, consuming at the bound |
| OracleLoop.Oracle.Quote | crates/kirby-genome/src/capable.rs:3419-3600 | think, clamp, charge under the content key, invoice, arm; every error branch |
| OracleLoop.Oracle.OracleTick | crates/kirby-genome/src/capable.rs:3198-3600 | one tick: age out, poll, dispatch on the event |
| OracleLoop.Oracle.LoopOnce | crates/kirby-genome/src/capable.rs:3638-3695 | the driver commits the number unless the tick was transient, and parks on a denied think |
| OracleSafety.StepKeeps | crates/kirby-genome/src/capable.rs:3198-3600 | every step keeps: waiting charges were armed at or above the floor, within the TTL, by distinct ticks |
| OracleSafety.ReachableInv | crates/kirby-genome/src/capable.rs:3638-3695 | the invariant holds in every reachable world |
| OracleAnswers.StepAnswersArePaid | crates/kirby-genome/src/capable.rs:3223-3362 | a step delivers an attestation only for a settlement that clears a charge armed for that recipient |
| OracleAnswers.PaidBeforeAnswered | crates/kirby-genome/src/capable.rs:3130-3134 | in every run each attestation is preceded by its arming, for the same sender, with verified sats at least the quote, at least 10 |
| OracleAtMostOnce.NeverRedirected | crates/kirby-genome/src/capable.rs:3480-3488 | without a hash collision, re-arming a charge never changes whom it answers |
| OracleAtMostOnce.HashCollisionFree | crates/kirby-genome/src/capable.rs:3069-3090 | a hash without collisions on the encodings is collision-free on the requests |
| OracleAtMostOnce.AtMostOneAnswerPerArming | crates/kirby-genome/src/capable.rs:3300-3361 | in every steady run each attestation answers an arming that nothing answered before |
| OracleAtMostOnce.AnswersCounted | crates/kirby-genome/src/capable.rs:3300-3361 | in every steady run a charge armed n times gets at most n answers |
| OracleAtMostOnce.RetryResendsTheSameAnswer | crates/kirby-genome/src/capable.rs:3300-3361 | the retry of a lost answer asks for one thing, the same text to the same customer under the same key, and fetches nothing |
| OracleSecondAnswer.AnswersIff | crates/kirby-genome/src/capable.rs:3223-3362 | a tick answers a charge exactly when its poll succeeds, the charge is held, the key is free and the daemon publishes |
| OracleSecondAnswer.NextAnswerIff | crates/kirby-genome/src/capable.rs:3109-3117 | after any inputs that neither arm nor answer a held charge, the next tick can answer it exactly when none rebooted or polled well without losing its retry, and the soft polls lead to a free key within the TTL |
| OracleSecondAnswer.SecondAnswerIff | crates/kirby-genome/src/capable.rs:3109-3117 | a charge whose answer went out and whose reply was lost can be answered again, whatever happens between, exactly when some tick number after the next one, within the TTL, has a free key |
| OracleSecondAnswer.AtMostOnceFailsIff | crates/kirby-genome/src/capable.rs:3300-3361 | in any run, steady or not, an arming is answered twice exactly when some tick polls well while an answered charge is held, under a free key, and the daemon publishes |
| OracleSecondAnswer.AnswerNeeds | crates/kirby-genome/src/capable.rs:3223-3362 | what any tick needs in order to answer a charge |
| OracleSecondAnswer.AnswerHappens | crates/kirby-genome/src/capable.rs:3223-3362 | when that is met, a tick whose calls succeed does answer |
| OracleSecondAnswer.SomeRunAnswersTwice | crates/kirby-genome/src/capable.rs:3109-3117 | a concrete run with one soft poll error in which one arming is answered twice |
| OracleProgress.ConsumedIsAlwaysAPrefix | crates/kirby-genome/src/capable.rs:3092-3128 | in every run the consumed events are exactly the front of the inbox |
| OracleProgress.OldestIsFirst | crates/kirby-genome/src/capable.rs:3118-3128 | in a growing inbox the oldest waiting event is the first, and consuming it leaves the rest |
| OracleProgress.TickLowers | crates/kirby-genome/src/capable.rs:2383-2409 | with only the think failing, a tick strictly lowers (events left, retries left) or parks |
| OracleProgress.InboxDrains | crates/kirby-genome/src/capable.rs:2687-2707 | n waiting events drain, or the agent parks, within 5n ticks |
| OracleProgress.HeadKeptIff | crates/kirby-genome/src/capable.rs:3223-3600 | a tick that polls well keeps the head exactly when the head settles a waiting charge and the reply is lost, asks for a self-report and the percept or reply is lost, or asks for a price and the think fails below its bound, the charge call is lost or the invoice is; otherwise it drops the head or parks |
| OracleProgress.OutageHolds | crates/kirby-genome/src/capable.rs:3300-3600 | an outage of the DM, the percept, the charge call or the invoice that the head needs holds it for as long as it lasts |
| OraclePayments.PaysAgainIff | crates/kirby-genome/src/capable.rs:3300-3361 | in any run, an input delivers an answer for a settlement that was answered before exactly when it polls well while an answered charge is held, under a free key, and the daemon publishes |
| OraclePayments.SpentWasPaid | crates/kirby-genome/src/capable.rs:3223-3362 | in any run, a charge answered since its arming and still waiting is held by the very event that paid for it, still the head of the inbox |
| OraclePayments.OneAnswerPerPayment | crates/kirby-genome/src/capable.rs:3300-3361 | in every steady run two ticks that deliver an attestation polled two different settlements |
| OracleLostAnswers.PaidUnansweredIff | crates/kirby-genome/src/capable.rs:3300-3361 | a consumed settlement of a held charge leaves it unanswered exactly when it was and the key was burned or the daemon did not publish; counted as sent, exactly when the key was burned |
| OracleLostAnswers.LostAnswerIff | crates/kirby-genome/src/capable.rs:3300-3361 | in any boot a settlement counted as sent leaves its charge unanswered exactly when an earlier boot burned the key and it was unanswered, or an earlier try of that settlement under that number was rejected and the rejection lost before any answer |
| OracleLostAnswers.SteadyLostAnswerIff | crates/kirby-genome/src/capable.rs:1681-1707 | in a steady run without a reboot, exactly when such a try was rejected unheard |
| OracleLostAnswers.SomeRebootLosesAPaidAnswer | crates/kirby-genome/src/capable.rs:3300-3361 | a concrete run that reboots, consumes a paid settlement as answered and has delivered nothing to anyone |
| OracleLostAnswers.SomeSteadyRunLosesAPaidAnswer | crates/kirby-genome/src/capable.rs:1681-1707 | a concrete steady run without a reboot that does the same after one unheard rejection |
| OracleOverflow.QueueBounded | crates/kirby-node/src/nerve.rs:773-806 | the queue never holds more than its capacity |
| OracleOverflow.ArrivalLosesIff | crates/kirby-node/src/nerve.rs:790-802 | an arrival loses an unhandled event exactly when the queue is full and its oldest event is wanted and past the cursor, and then it loses that one alone |
| OracleOverflow.NeverFullIsUnbounded | crates/kirby-node/src/nerve.rs:773-806 | while no arrival finds the queue full, the bounded run is the unbounded one |
| OracleOverflow.PaidThoughBounded | crates/kirby-genome/src/capable.rs:3130-3134 | whatever is dropped, each attestation is preceded by its arming for the same sender at the verified price |
| OracleOverflow.AtMostOnceThoughBounded | crates/kirby-genome/src/capable.rs:3300-3361 | with a bounded queue each arming is answered at most once, if no drop takes the event under retry and no poll fails softly before it |
| OracleOverflow.OneAnswerPerPaymentThoughBounded | crates/kirby-genome/src/capable.rs:3300-3361 | under the same hypothesis no settlement pays for two answers |
| OracleOverflow.SomeDropAnswersTwice | crates/kirby-node/src/nerve.rs:790-802 | a concrete run with a queue of two in which every poll succeeds and a drop lets one arming be answered twice |
| OracleQuotes.EveryQuoteHasAQuorum | crates/kirby-genome/src/capable.rs:2955-3037 | in every run a delivered attestation shows a price exactly when at least two distinct feeds answered, and it splits their prices as a median |
| OracleQuotes.BuildTells | crates/kirby-genome/src/capable.rs:2955-3037 | the sources are exactly the feeds, of the three, one of whose two tries under its own unused key brought a price; at two sources each shows the first price it brought, below that none shows any |
| OracleQuotes.AttestsWhatFeedsSaid | crates/kirby-genome/src/capable.rs:2955-3037 | in every run each delivered attestation says, in that sense, what the feeds said in a tick that polled a settlement of its charge |
| OracleDisposition.UnmatchedIsPassed | crates/kirby-genome/src/capable.rs:3224-3283 | a settlement that does not decode, contradicts its charge id or names no charge that waits is passed over, and the daemon is asked for nothing |
| OracleDisposition.UnderpaidIsForfeited | crates/kirby-genome/src/capable.rs:3284-3305 | a settlement below the amount of a waiting charge is passed over, takes that charge and no other with it, and the daemon is asked for nothing |
| OracleDisposition.ForfeitedUntilArmedAgain | crates/kirby-genome/src/capable.rs:3284-3305 | in every run an underpaid charge is not answered before it is armed again |
| OracleDisposition.PaidIsAnswered | crates/kirby-genome/src/capable.rs:3306-3362 | a settlement at or above the amount sends one attestation, the one in hand or what the feeds say now, to the customer who armed the charge, delivered exactly when the key is free and the daemon publishes; a lost reply keeps the charge with that attestation, anything else clears it |
| OracleDisposition.QuoteDisposes | crates/kirby-genome/src/capable.rs:3419-3600 | a request whose think is performed is charged at the quote, at least 10 sats, under its content key; it is invoiced exactly when the charge comes back at that amount and armed exactly when the invoice is heard; a lost call retries, a refused or differing charge is passed over |
| OracleDisposition.ReportDisposes | crates/kirby-genome/src/capable.rs:3368-3418 | a request for the books goes back to whoever asked, and is retried exactly when the percept or the send is lost; any other message is passed over |
| OracleDisposition.BrokeParks | crates/kirby-genome/src/capable.rs:3419-3460 | a request whose think is denied parks the loop with the waiting-set, the cursor and the ledgers as they were |
| OracleDisposition.RecordsIff | crates/kirby-genome/src/capable.rs:3198-3600 | a tick reports a write exactly when it sends an attestation or the books and hears that the DM is out, or arms a charge, even one whose invoice was refused |
| OracleDisposition.IdleAges | crates/kirby-genome/src/capable.rs:3206-3221 | a tick with nothing to serve uses up its number, ages the unpaid charges and reports no write |
| OracleDisposition.ArmedWasQuoted | crates/kirby-genome/src/capable.rs:3419-3600 | in every run each arming is by a tick that served a price request of that customer, at what the brain quoted for it, under the id the daemon holds for that request |
| OracleDisposition.AnsweredWasQuoted | crates/kirby-genome/src/capable.rs:3130-3134 | in every run each attestation answers a price request of its recipient: an earlier tick quoted for it, and the tick that delivers polled a settlement of the charge agreed on then at no less than that quote |
| OraclePoison.CounterIsFailures | crates/kirby-genome/src/capable.rs:2383-2409 | in every run the retry counter is the number of failed thinks at the head of the inbox since the last performed think or reboot, read off the inputs |
| OraclePoison.DropsAtTheFifth | crates/kirby-genome/src/capable.rs:2383-2409 | in every run a failing think drops its request exactly when it is the fifth failure of that request, with no performed think and no reboot between, and otherwise leaves it the head |
| OracleProgress.WaitingSetBounded | crates/kirby-genome/src/capable.rs:3208-3210 | at most 241 charges wait in any reachable world |
| Median.SortedIs | crates/kirby-genome/src/capable.rs:2876-2884 | sorting orders the prices and keeps them as a multiset |
| Median.MedianSplits | crates/kirby-genome/src/capable.rs:2876-2884 | at most half the prices lie strictly below the median and at most half strictly above |
| Median.MedianIsMiddle | crates/kirby-genome/src/capable.rs:2876-2884 | the median is the mean of the two prices in the middle, told by how many lie below and above each; for an odd count they are one |
| Median.BreakdownPoint | crates/kirby-genome/src/capable.rs:2873-2884 | changing fewer than half of the prices leaves the median within the range of the unchanged ones |
| Median.HalfIsEnough | crates/kirby-genome/src/capable.rs:2873-2884 | the bound is sharp for every list: changing half of its prices, rounded up, can put the median anywhere |
| Median.PriceOnlyAtQuorum | crates/kirby-genome/src/capable.rs:2987-3020 | an answer shows a price exactly when two sources answered, never beside a source below quorum, and it is their median |
| Median.OneLiarOfThree | crates/kirby-genome/src/capable.rs:2945-2955 | one lying feed of three cannot move the attested price outside the other two |
| ChargeIdentity.InboundChargeIdentity | crates/kirby-genome/src/capable.rs:3069-3090 | the buffer filled field by field is the length-prefixed encoding, and it is what is hashed |
| ChargeIdentity.EncodeInjective | crates/kirby-genome/src/capable.rs:3055-3090 | requests of any lengths have equal encodings only if they are equal |
| ChargeIdentity.SharedKeyIsCollision | crates/kirby-genome/src/capable.rs:3480-3488 | two different requests with one charge key have two different encodings with one digest |
| DmLoop.DmHistory.RecordExchange | crates/kirby-genome/src/capable.rs:1229-1239 | both turns join the ring and the oldest leave it |
| DmLoop.DmHistory.Window | crates/kirby-genome/src/capable.rs:1244-1251 | the last turns of that sender, oldest first, nothing for a stranger |
| DmLoop.Capable.DmReplyTick | crates/kirby-genome/src/capable.rs:1385-1491 | think, then one reply, one widening, or a settlement that acts on nothing |
| DmLoop.Capable.TickWithInbox | crates/kirby-genome/src/capable.rs:1267-1339 | take a conversation when idle, settle or keep it by the outcome |
| DmLoop.Capable.LoopOnce | crates/kirby-genome/src/capable.rs:2126-2375 | the number is committed unless the tick was transient |
| DmTheorems.AtMostOneReplyToItsSender | crates/kirby-genome/src/capable.rs:1629-1709 | in every run each message gets at most one reply, and it goes to the one who sent the message |
| DmTheorems.Quarantine | crates/kirby-genome/src/capable.rs:1464-1480 | a conversation's tick makes reads, one think on that sender's own turns and at most one DM to that sender, and nothing else |
| DmTheorems.BusyProgress | crates/kirby-genome/src/capable.rs:1291-1336 | a busy tick settles, parks, retries unchanged, or uses one of the bounded widenings |
| DmTheorems.ConversationSettles | crates/kirby-genome/src/capable.rs:1395-1402 | a conversation settles within maxReads + 1 ticks that are not retries |
| DmTheorems.HistoryIsRecentExchanges | crates/kirby-genome/src/capable.rs:1215-1239 | in every run each ring is the last historyMax turns of that sender's filed exchanges |
| DmTheorems.TrimTwice | crates/kirby-genome/src/capable.rs:1236-1238 | trimming at every step is trimming once at the end |
| DmDisposition.TakesTheOldest | crates/kirby-genome/src/capable.rs:1281-1291 | in every run an idle tick whose poll succeeds takes the oldest message past the cursor, and none only when all are confirmed |
| DmDisposition.ShowsWindow | crates/kirby-genome/src/capable.rs:1395-1416 | the brain is shown the last turns with that sender: as many as the window holds at first, as many as the history holds once widened |
| DmDisposition.TickDisposes | crates/kirby-genome/src/capable.rs:1291-1491 | a tick that holds a conversation widens it exactly when a READ_MORE comes back with reads left, parks exactly on a denied thought, keeps it exactly when the think or the send is lost, and otherwise settles it; it files a reply exactly when the daemon says it went out, and delivers it exactly when it did |
| DmDisposition.OrdinaryDisposes | crates/kirby-genome/src/capable.rs:1108-1172 | an ordinary tick makes the one call its thought asks for and sends no DM; it retries exactly when the thought, the post or the fetch is lost |
| DmDelivery.FiledIffPublished | crates/kirby-genome/src/capable.rs:1648-1656 | a filed exchange was delivered exactly when its key was burned by a publication |
| DmDelivery.PhantomIff | crates/kirby-genome/src/capable.rs:1681-1707 | a reply filed now was never delivered exactly when its key was already burned by a rejection |
| DmDelivery.SomeRunFilesAPhantom | crates/kirby-genome/src/capable.rs:1681-1707 | a concrete run that files a reply nobody received |
| DmRestarts.ReachableOk | crates/kirby-genome/src/capable.rs:2143-2172 | across ticks, arrivals and restarts: what a restart can re-serve is the oldest message held, and which message each number was thought under |
| DmRestarts.OneReplyPerBoot | crates/kirby-genome/src/capable.rs:2164-2169 | across restarts a message gets at most one reply in each boot, so at most one more than there were restarts, and each goes to its sender |
| DmRestarts.OnlyTheOldestAgain | crates/kirby-genome/src/capable.rs:2164-2169 | a message answered in this boot and in an earlier one is the oldest the daemon held at the restart |
| DmRestarts.FirstTickAnswersIff | crates/kirby-genome/src/capable.rs:2143-2154 | the first tick after a restart can answer the oldest message held exactly when the number past the checkpoint has a free send key and the thought kept under it, or else some thought, is a reply |
| DmRestarts.DecidedForIt | crates/kirby-genome/src/capable.rs:1417-1418 | in every run a reply was thought for its own message, unless an ordinary tick or an earlier boot had thought under its number |
| DmRestarts.SomeRestartAnswersTwice | crates/kirby-genome/src/capable.rs:2164-2169 | a concrete run in which one message is answered before and after a restart |
| DmRestarts.SomeRestartReusesAThought | crates/kirby-genome/src/capable.rs:2213-2220 | a concrete run in which a restart behind the last thought gives one sender the reply thought for another |
| DmRestarts.SomeThoughtComesFirst | crates/kirby-genome/src/capable.rs:1417-1418 | a concrete run in which a message is answered by a thought performed before it came |
| PrimeField.InverseInverts | crates/kirby-custody/src/ecdh.rs:205-208 | every non-zero scalar has the inverse the coefficient uses |
| PrimeField.NoZeroDivisors | crates/kirby-custody/src/ecdh.rs:197-204 | a product of non-zero factors is not zero |
| PrimeField.Interpolation | crates/kirby-custody/src/ecdh.rs:176-210 | over any prime field a polynomial with no more coefficients than distinct nodes is recovered at zero from its values |
| Ecdh.LagrangeCoefficient | crates/kirby-custody/src/ecdh.rs:179-210 | the guards in order, then the running products are the reduced numerator and denominator |
| Ecdh.AggregateContributions | crates/kirby-custody/src/ecdh.rs:228-237 | the running sum, stopping at the first point that does not decode; the identity is refused |
| Ecdh.ValidateSigners | crates/kirby-custody/src/ecdh.rs:252-283 | the faults in the order the scan meets them |
| Ecdh.ValidateAccepts | crates/kirby-custody/src/ecdh.rs:247-283 | accepted exactly when non-empty, distinct, one group and at threshold |
| EcdhTheorems.LagrangeIsWeight | crates/kirby-custody/src/ecdh.rs:176-210 | for distinct identifiers the denominator is invertible and the coefficient solves the weight equation |
| EcdhTheorems.CombineIsSecretTimesPeer | crates/kirby-custody/src/ecdh.rs:225-301 | an Ok result of any accepted quorum is the secret times the peer point |
| EcdhTheorems.CombineSucceedsIff | crates/kirby-custody/src/ecdh.rs:289-301 | for shares of one group, success exactly when accepted, the peer key lifts, and neither a share nor the secret is zero |
| EcdhTheorems.QuorumsAgree | crates/kirby-custody/src/ecdh.rs:285-301 | any two successful quorums of one sharing agree |
| EcdhTheorems.TweakedQIsTweakedSecret | crates/kirby-custody/src/ecdh.rs:317-359 | the output key is the internal secret, negated for an odd key, plus the tweak |
| EcdhTheorems.TweakedIsTweakedSecretTimesPeer | crates/kirby-custody/src/ecdh.rs:361-419 | an Ok tweaked result is the tweaked secret times the peer point, for both parities |
| EcdhTheorems.TweakedSucceedsIff | crates/kirby-custody/src/ecdh.rs:376-419 | the exact success condition of the tweaked ceremony |
| EcdhTheorems.PeerDerivesTheSame | crates/kirby-custody/src/ecdh.rs:361-375 | the agent and its peer derive the same x-coordinate, whatever the four parities |
| EcdhTheorems.SomeCeremonySucceeds | crates/kirby-custody/src/ecdh.rs:376-419 | the hypotheses can be met together: on a group of order five two of three holders complete both ceremonies |
| Fleet.FindFree | crates/kirby-node/src/fleet.rs:178-194 | the scan stops at the least free offset, or every CID up to the end of the u32 range is occupied |
| Fleet.Allocator.LoadOrNew | crates/kirby-node/src/fleet.rs:130-147 | the stored live set, the empty one when there is no file, and an error exactly when a file is there that cannot be read or parsed |
| Fleet.Allocator.Persist | crates/kirby-node/src/fleet.rs:233-246 | a write replaces the whole file or leaves it |
| Fleet.Allocator.Allocate | crates/kirby-node/src/fleet.rs:168-213 | every outcome with the whole state after it; every rejection, a failed write included, restores the exact prior state |
| Fleet.Allocator.Release | crates/kirby-node/src/fleet.rs:218-228 | the tenant leaves memory whatever happens to the write |
| Fleet.RunWithinCount | crates/kirby-node/src/fleet.rs:178-194 | a run of occupied CIDs is no longer than the number of tenants |
| Fleet.OverflowIff | crates/kirby-node/src/fleet.rs:183-198 | below the ceiling there is a least free offset, at most the live count, and overflow is exactly that it overflows a CID or a port |
| Fleet.AllocatesIff | crates/kirby-node/src/fleet.rs:168-213 | an allocation succeeds exactly when the agent holds no slot, the count is below the ceiling, the least CID that nobody holds and the port at its offset are 32-bit numbers, and the write goes through; then it grants just that slot, in memory and in the file, and otherwise nothing changes |
| Fleet.RunsStayDisjoint | crates/kirby-node/src/fleet.rs:104-246 | in every run, under any configuration at each reload, memory is a submap of the file and both hold distinct CIDs, each in a slot of one of the pools |
| Fleet.NoTwoTenantsShare | crates/kirby-node/src/fleet.rs:157-167 | in every run whose configurations keep the difference of port base and CID base, live CIDs, ports and instance ids are pairwise distinct, an instance id is "kirby-" and the agent, and CIDs lie in a pool |
| Fleet.ReloadNeverReHands | crates/kirby-node/src/fleet.rs:125-147 | after a crash at any point and a reload under any configuration the next allocation avoids every CID that was held, and every port if the difference is kept |
| FleetReload.CollideIff | crates/kirby-node/src/fleet.rs:130-194 | for any two configurations, some run under them gives two live tenants one port exactly when they differ in port base minus CID base and have the room |
| FleetReload.SomeChanges | crates/kirby-node/src/fleet.rs:130-194 | a lower port base alone and a higher CID base alone collide; both raised together never do |
| Failover.DetectTakeovers | crates/kirby-node/src/failover_detect.rs:114-187 | the verdicts in snapshot order and the rewritten grace map |
| Failover.GraceIsTheStreak | crates/kirby-node/src/failover_detect.rs:168-187 | after any history the grace map is exactly the agents with an unbroken candidate streak, at the time it began |
| Failover.StreakUnique | crates/kirby-node/src/failover_detect.rs:168-187 | at most one tick starts the current streak |
| Failover.VerdictIff | crates/kirby-node/src/failover_detect.rs:82-187 | a takeover is ordered exactly when some lease is fresh, the term is the observed one plus one, and the grace span has passed since the first tick from which, at every tick with a fresh lease, the agent was observed, hosted elsewhere, and ttl < age <= max age |
| Failover.VerdictsInOrder | crates/kirby-node/src/failover_detect.rs:142-187 | the verdicts of a tick come in the order of the snapshot |
| Failover.VerdictMeansDead | crates/kirby-node/src/failover_detect.rs:92-104 | behind every verdict no sighted tick saw a fresh lease for the grace span, and ttl < age <= max age |
| Failover.RecoveryClears | crates/kirby-node/src/failover_detect.rs:141-149 | no verdict within the grace span of a fresh sighting |
| Failover.BlindTickIsInert | crates/kirby-node/src/failover_detect.rs:129-134 | a blind tick emits nothing and moves no timer |
| Failover.StuckAgentYields | crates/kirby-node/src/failover_detect.rs:206-223 | the first verdict whose last failure is not within the backoff span heads what is left |
| Sha256Constants.InitialValuesAreRoots | crates/kirby-genome/src/fingerprint.rs:51-56 | the initial values are the fractional parts of the square roots of the first eight primes |
| Sha256Constants.RoundConstantsAreRoots | crates/kirby-genome/src/fingerprint.rs:58-71 | the round constants are the fractional parts of the cube roots of the first sixty-four primes |
| Sha256Constants.RowsArePrimes | crates/kirby-genome/src/fingerprint.rs:58-71 | the numbers whose roots these are start at 2, are primes, and miss no prime between them |
| Sha256.PadInPlace | crates/kirby-genome/src/fingerprint.rs:73-81 | the padding loop ends with the least number of zeros and the wrapped bit length |
| Sha256.FillSchedule | crates/kirby-genome/src/fingerprint.rs:85-98 | the filled array is the recursive schedule of the block |
| Sha256.Compress | crates/kirby-genome/src/fingerprint.rs:100-130 | sixty-four rotations of eight locals are the recursive rounds |
| Sha256.AddInPlace | crates/kirby-genome/src/fingerprint.rs:132-139 | the hash array takes the wrapped sums |
| Sha256.Hash | crates/kirby-genome/src/fingerprint.rs:50-147 | for every message the in-place hasher returns the digest of the recursive definition |
| Sha256.BlockByBlock | crates/kirby-genome/src/fingerprint.rs:83-139 | the hash after n blocks is the hash after n - 1 with the n-th block alone run through the rounds from it, and added |
| Sha256.ConstantsAreThose | crates/kirby-genome/src/fingerprint.rs:58-71 | the round constants as words are those whose roots are checked |
| Sha256.InitialIsThose | crates/kirby-genome/src/fingerprint.rs:51-56 | the initial hash value as words is the one whose roots are checked |
| Sha256Bits.ChSelects | crates/kirby-genome/src/fingerprint.rs:112 | Ch takes each bit from y where that of x is set, and from z elsewhere |
| Sha256Bits.MajIsMajority | crates/kirby-genome/src/fingerprint.rs:119 | Maj sets the bits set in two of the three |
| Sha256Bits.BigSigma0Bits | crates/kirby-genome/src/fingerprint.rs:118 | each bit is the parity of the bits 2, 13 and 22 places up, counted round |
| Sha256Bits.BigSigma1Bits | crates/kirby-genome/src/fingerprint.rs:111 | each bit is the parity of the bits 6, 11 and 25 places up, counted round |
| Sha256Bits.SmallSigma0Bits | crates/kirby-genome/src/fingerprint.rs:92 | each bit is the parity of the bits 7 and 18 places up, counted round, and 3 places up, absent ones reading 0 |
| Sha256Bits.SmallSigma1Bits | crates/kirby-genome/src/fingerprint.rs:93 | each bit is the parity of the bits 17 and 19 places up, counted round, and 10 places up, absent ones reading 0 |
| Sha256Abc.DigestOfAbc | crates/kirby-genome/src/fingerprint.rs:50-147 | the digest of "abc" is the published one |
| Sha256.PadIsWholeBlocks | crates/kirby-genome/src/fingerprint.rs:73-84 | the padded length is a multiple of 64 |
| Sha256.PadInjective | crates/kirby-genome/src/fingerprint.rs:73-81 | padding is injective on messages shorter than 2^61 bytes |
| Fingerprint.ToHex | crates/kirby-genome/src/fingerprint.rs:35-43 | the text pushed digit by digit is the hex text |
| Fingerprint.HexRoundTrip | crates/kirby-genome/src/fingerprint.rs:35-43 | hex text determines its bytes |
| Fingerprint.Derive | crates/kirby-genome/src/fingerprint.rs:27-32 | the hex digest of nonce and big-endian generation |
| Fingerprint.InputInjective | crates/kirby-genome/src/fingerprint.rs:22-32 | nonces of any lengths: equal inputs only for the same nonce and generation |
| Fingerprint.SharedFingerprintIsCollision | crates/kirby-genome/src/fingerprint.rs:22-32 | two different births with one fingerprint have two different inputs with one SHA-256 digest |
| Blanker.ConsumeToken | scripts/lint-macos-cfg.py:75-123 | one turn of the outer loop renders exactly one token, or fails where the original indexes past the end |
| Blanker.BlankStringsAndComments | scripts/lint-macos-cfg.py:65-124 | the pass over the text is the token-by-token blanking, and fails where the original does |
| Blanker.EachCharacter | scripts/lint-macos-cfg.py:65-70 | each output character is the input's as its token shows it |
| Blanker.NewlinesSurvive | scripts/lint-macos-cfg.py:66-70 | newlines survive exactly outside character literals |
| Blanker.NothingOpens | scripts/lint-macos-cfg.py:66-70 | the output holds no double quote, line comment or block comment opener |
| Blanker.ResultIsPlain | scripts/lint-macos-cfg.py:75-123 | every token of the output is plain |
| Blanker.Idempotent | scripts/lint-macos-cfg.py:65-124 | blanking twice is blanking once |
| Blanker.FailsIff | scripts/lint-macos-cfg.py:99-112 | the scan fails exactly when it comes to a string that runs to a dangling backslash |
| Blanker.FailsOnlyDangling | scripts/lint-macos-cfg.py:99-112 | a text that does not end in a backslash never fails |
| BlankerTokens.BlockEndBalances | scripts/lint-macos-cfg.py:80-91 | a block comment ends just past the closer that balances it, nested ones counted, or at the end of the text |
| BlankerTokens.StringEndIs | scripts/lint-macos-cfg.py:101-112 | a string ends just past its first quote before which the backslashes are even in number, or runs to the end of the text, one past it on a dangling backslash |
| BlankerTokens.RawOpenIs | scripts/lint-macos-cfg.py:92-96 | a raw string opens exactly at an optional b, an r, any hashes and a quote |
| BlankerTokens.RawTokenEnds | scripts/lint-macos-cfg.py:92-100 | a raw string is one token, which ends just past the first quote followed by as many hashes as opened it, or with the text |
| Egress.TokenBucket.constructor | crates/kirby-node/src/egress.rs:290-298 | a fresh bucket is full, and a rate of zero reads as one |
| Egress.TokenBucket.TryTake | crates/kirby-node/src/egress.rs:301-311 | refill by the elapsed time up to capacity, then take one token if there is one |
| Egress.GrantsArePaid | crates/kirby-node/src/egress.rs:279-312 | grants plus tokens left never exceed tokens held plus tokens accrued |
| Egress.RateBound | crates/kirby-node/src/egress.rs:279-312 | in any window of d seconds at most cap + d * cap / 60 grants, whatever came before |
| Egress.PatientIsGranted | crates/kirby-node/src/egress.rs:301-311 | an attempt 60 / cap seconds after the previous one is granted |
| Egress.BurstIsGranted | crates/kirby-node/src/egress.rs:290-311 | of any number of attempts at one instant a fresh bucket grants the first rate-many and no more |
| Egress.AttemptBooks | crates/kirby-node/src/egress.rs:301-311 | an attempt takes a whole token exactly when the tokens held and accrued reach one, and keeps the rest, fractions included |
| Egress.ReadBounded | crates/kirby-node/src/egress.rs:409-431 | the first min(total, cap) bytes of what the stream delivers, truncated exactly when there were more |
| Egress.EffectiveCap | crates/kirby-node/src/egress.rs:384-392 | the caller may lower the cap and never raise it |
| Egress.MeterMonotonic | crates/kirby-node/src/egress.rs:376-382 | more bytes never cost less, saturation included |
| Egress.MeterIs | crates/kirby-node/src/egress.rs:365-382 | the cost of a body is the floor plus the price of each KiB started, capped at the greatest 64-bit number |
| Egress.Perform | crates/kirby-node/src/egress.rs:580-585 | the debit stays within the reservation and the worst case, and is the metered cost when the worst case was reserved |
| Egress.WorstCaseCoversEveryFetch | crates/kirby-node/src/egress.rs:365-382 | no body, chunking or caller cap meters above the worst case; where that fits 64 bits the cost is the floor plus the price of each KiB started |
| Ceremony.Relay.Endpoint | crates/kirby-custody/src/seam.rs:92-99 | a mailbox is registered once, and binding to it again leaves what it holds |
| Ceremony.Relay.Send | crates/kirby-custody/src/seam.rs:121-132 | append to a registered mailbox, refuse an unknown one |
| Ceremony.Relay.Recv | crates/kirby-custody/src/seam.rs:134-146 | pop the front of the own mailbox |
| Ceremony.Commit | crates/kirby-custody/src/seam.rs:184-203 | every signer keeps its nonce and queues its commitment, unless one cannot be written |
| Ceremony.Collect | crates/kirby-custody/src/seam.rs:205-218 | n expected events are taken and gathered by sender |
| Ceremony.FanOut | crates/kirby-custody/src/seam.rs:221-236 | one package in every signer's mailbox |
| Ceremony.SignRound | crates/kirby-custody/src/seam.rs:238-268 | whatever the mailboxes hold, no nonce signs twice; poised mailboxes yield every share |
| Ceremony.Coordinate | crates/kirby-custody/src/seam.rs:163-288 | with registered, empty, bound mailboxes and a working codec no transport or ordering error occurs, all sign one package, the outcome is the library's, and every mailbox is left as found; a repeated identifier, or a package that cannot be written, stops it before any signing |
| Ceremony.DistinctIff | crates/kirby-custody/src/seam.rs:172-183 | the identifiers that pass the duplicate check are those as many as the signers |
| Ceremony.PackageIsTheSignerSet | crates/kirby-custody/src/seam.rs:205-219 | the package holds a commitment for exactly the signer set, each its own |
| Ceremony.SharesAreTheSignerSet | crates/kirby-custody/src/seam.rs:270-284 | the aggregated shares are exactly the signer set's, each from its own nonce on that package |
| Engram.Encode | crates/kirby-node/src/engram.rs:84-95 | the bytes pushed are the frame, with an oversized slug cut |
| Engram.EncodedParts | crates/kirby-node/src/engram.rs:84-95 | the layout: a 0 or 1, two big-endian bytes of slug length, the slug cut at 65535 bytes, the value |
| Engram.RoundTripIff | crates/kirby-node/src/engram.rs:81-118 | encoding then decoding gives the frame back exactly when the slug needs no cut |
| Engram.EncodeDecode | crates/kirby-node/src/engram.rs:97-118 | whatever decodes re-encodes to the same bytes |
| Engram.HeadIs | crates/kirby-node/src/engram.rs:219-228 | the fold picks a member created no earlier than any other, and of those created with it one of lowest id |
| Engram.StoreHoldsWinner | crates/kirby-node/src/engram.rs:22-24 | a relay that replaces by address holds the best event delivered for it |
| Engram.Converges | crates/kirby-node/src/engram.rs:211-228 | whatever each relay saw, in any order and with repeats, the head of their stores is the head of everything delivered |
| Engram.ReadsTheWrite | crates/kirby-node/src/rail.rs:2967-3061 | if the relays that acknowledged a write and those that answer a read outnumber the set, the read's head is that write or beats it |
| Notes.SanitizeIdempotent | crates/kirby-custody/src/guardian.rs:252-271 | sanitizing a sanitized note changes nothing |
| Notes.VisibleStays | crates/kirby-custody/src/guardian.rs:252-271 | a text without white space or control characters is kept as it is |
| Notes.GapSplits | crates/kirby-custody/src/guardian.rs:252-271 | a text broken at any white space or control character becomes its two parts, each sanitized, with one space between them if neither is empty |
| Notes.VisibleKept | crates/kirby-custody/src/guardian.rs:252-271 | every other character is kept, in order, and only plain spaces are added |
| Notes.Utf8IsWellFormed | crates/kirby-custody/src/guardian.rs:266-268 | the length in bytes is that of the UTF-8 encoding |
| Notes.CleanIff | crates/kirby-custody/src/guardian.rs:273-285 | a guardian accepts exactly the sanitizer's range, which is exactly the tidy one-line texts of 1 to 512 UTF-8 bytes |

## Left out

- Idempotency keys are structured values (`DmKey`, `FetchKey`), not the decimal strings of the source; that distinct
  numbers render to distinct strings is assumed.
- Counters (`seq`, `committed`, `term`, clocks) are unbounded naturals: the overflow of `seq + 1` or `term + 1`, and the
  saturation of `issued_seq + 240`, at 2^64 are not modelled. Saturating subtraction, 64-bit saturating cost arithmetic, the
  wrapped bit length of SHA-256 and the `u32` casts of the allocator are.
- The daemon is an environment contract (`gateway.rs` and `treasury.rs` are not part of this model, nor is `nerve.rs` but
  for its queue): it numbers arrivals upward, prunes what a cursor confirms, dedupes by key, burns a DM key on
  publication and on an upstream rejection, and hands out each charge id once. Its own restart is not modelled.
- The queue of the daemon drops its oldest event on overflow. Outside `OracleOverflow` the inbox is unbounded:
  `ConsumedIsAlwaysAPrefix`, `HeadKeptIff`, `InboxDrains`, the exact conditions for second and lost answers, and every
  theorem about private messages, are about runs in which nothing is dropped.
- Prompts, persona, feedback, the text of invoices, attestations and books, and the JSON price extractors: text assembly.
  An attestation is its median, sources, clock and charge; the request parser, settlement decoder and action parser are
  arbitrary functions.
- Redialing, sleeps, logging, `send_event` reports and the runway figures carried between ticks: no decision depends on them.
- Only `DmRestarts` lets the private-message agent restart: history, cursor and busy flag die with the process, and the
  tick number comes back from the last checkpoint that got through. The other private-message modules are about one
  boot from number zero. The read of recalled facts is one call that never fails the tick. An ordinary tick is modelled by
  the call its plan makes and its outcome, not by the contents of memory or posts.
- Curve points are discrete logarithms in a prime-order group with abstract x-coordinate and parity; the curve equation,
  constant-time behaviour, HKDF, HMAC, NIP-44 and BIP-340 are library calls. Wire points are decoded or garbled. Scalars
  arrive canonical, so the malformed-scalar error of an unreadable share is unreachable here.
- Prices and bucket tokens are reals: floating-point rounding, NaN and the two-decimal rendering are not modelled.
- Fleet: JSON encoding and the directory lock are not modelled; whether a state file can be read and parsed, and whether
  a write to it succeeds, are inputs. `CollideIff` is about two configurations; three or more are covered by
  `NoTwoTenantsShare` when they keep the difference.
- Ceremony: FROST itself and the wire format are arbitrary functions that may fail.
- Blanker: the `cfg` tracker of `analyze` and the file walk around it are not modelled. The two regular expressions
  are written out as scanners.
- Notes: UTF-8 length and Unicode white space follow the Unicode tables as of the `White_Space` property; the other
  checks of `validate` are single guards that would only add easy members.
- Engram: sealing, addressing by HMAC and signatures are library calls; an event is its address, time and id, so that an
  id stands for the whole content.
- The relay lease, takeover wiring, treasury, checkpoint, metabolism, hibernation and boot code: not part of this model.
