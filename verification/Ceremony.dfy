/** The signing ceremony over first-in-first-out mailboxes: what it needs of the transport, that every
    nonce signs at most once whatever arrives, and that a clean run leaves every mailbox as it was. */
module Ceremony {
  import opened Bytes

  type Id = n: nat | n < 65536

  /** The reserved address of the coordinator. */
  const COORDINATOR: Id := 65535

  datatype Round = CommitmentRound | PackageRound | ShareRound

  datatype Event = Event(session: nat, from: Id, round: Round, payload: Str)

  /** A guardian taking part: its identifier, the mailbox its endpoint is bound to, its key package. */
  datatype Signer = Signer(id: Id, me: Id, key: Str)

  datatype Package = Package(commitments: map<Id, Str>, message: Str)

  /** A fresh round-1 nonce and the commitment to it. */
  datatype Draw = Draw(nonce: Str, commitment: Str)

  /** The signature library and the wire codec. Writing a value may fail, as may reading one. */
  datatype Library = Library(
    putCommitment: Str -> Option<Str>,
    getCommitment: Str -> Option<Str>,
    putPackage: Package -> Option<Str>,
    getPackage: Str -> Option<Package>,
    putShare: Str -> Option<Str>,
    getShare: Str -> Option<Str>,
    sign: (Package, Str, Str) -> Option<Str>,
    aggregate: (Package, map<Id, Str>) -> Option<Str>,
    putSignature: Str -> Option<Str>)

  datatype Error = DuplicateSigner | Transport | Unexpected | Codec | MissingNonce | BadShare | NoQuorum | BadLength

  /** A nonce spent on a package. */
  datatype Signing = Signing(id: Id, nonce: Str, package: Package)

  type Inboxes = map<Id, seq<Event>>

  // ---- The relay ----

  class Relay {
    var inboxes: Inboxes

    constructor ()
      ensures inboxes == map[]
    {
      inboxes := map[];
    }

    /** Registers a mailbox unless there is one. */
    method Endpoint(me: Id)
      modifies this
      ensures inboxes == if me in old(inboxes) then old(inboxes) else old(inboxes)[me := []]
    {
      if me !in inboxes {
        inboxes := inboxes[me := []];
      }
    }

    method Send(to: Id, event: Event) returns (ok: bool)
      modifies this
      ensures ok <==> to in old(inboxes)
      ensures inboxes == if ok then old(inboxes)[to := old(inboxes)[to] + [event]] else old(inboxes)
    {
      ok := to in inboxes;
      if ok {
        inboxes := inboxes[to := inboxes[to] + [event]];
      }
    }

    method Recv(me: Id) returns (event: Option<Event>)
      modifies this
      ensures event == if me in old(inboxes) && old(inboxes)[me] != [] then Some(old(inboxes)[me][0]) else None
      ensures inboxes == if event.Some? then old(inboxes)[me := old(inboxes)[me][1..]] else old(inboxes)
    {
      if me !in inboxes || inboxes[me] == [] {
        return None;
      }
      event := Some(inboxes[me][0]);
      inboxes := inboxes[me := inboxes[me][1..]];
    }
  }

  // ---- What a clean ceremony exchanges ----

  ghost predicate Distinct(signers: seq<Signer>) {
    forall i, j :: 0 <= i < j < |signers| ==> signers[i].id != signers[j].id
  }

  function Ids(signers: seq<Signer>): set<Id> {
    set s | s in signers :: s.id
  }

  /** The bytes written, when there are any. */
  function Wire(written: Option<Str>): Str {
    if written.Some? then written.value else []
  }

  function CommitmentEvent(lib: Library, session: nat, s: Signer, f: Draw): Event {
    Event(session, s.id, CommitmentRound, Wire(lib.putCommitment(f.commitment)))
  }

  function CommitmentEvents(lib: Library, session: nat, signers: seq<Signer>, draws: seq<Draw>): seq<Event>
    requires |draws| == |signers|
  {
    seq(|signers|, i requires 0 <= i < |signers| => CommitmentEvent(lib, session, signers[i], draws[i]))
  }

  /** The values of the first `n` signers, by identifier. */
  function Tabulate(signers: seq<Signer>, values: seq<Str>, n: nat): map<Id, Str>
    requires |values| == |signers| && n <= |signers|
  {
    if n == 0 then map[] else Tabulate(signers, values, n - 1)[signers[n - 1].id := values[n - 1]]
  }

  function Commitments(draws: seq<Draw>): seq<Str> {
    seq(|draws|, i requires 0 <= i < |draws| => draws[i].commitment)
  }

  /** The one package of a ceremony. */
  function ThePackage(signers: seq<Signer>, draws: seq<Draw>, message: Str): Package
    requires |draws| == |signers|
  {
    Package(Tabulate(signers, Commitments(draws), |signers|), message)
  }

  ghost predicate AllSign(lib: Library, p: Package, signers: seq<Signer>, draws: seq<Draw>)
    requires |draws| == |signers|
  {
    forall i :: 0 <= i < |signers| ==> lib.sign(p, draws[i].nonce, signers[i].key).Some?
  }

  function ShareOf(lib: Library, p: Package, s: Signer, f: Draw): Str {
    var share := lib.sign(p, f.nonce, s.key);
    if share.Some? then share.value else []
  }

  function ShareEvents(lib: Library, session: nat, p: Package, signers: seq<Signer>, draws: seq<Draw>): seq<Event>
    requires |draws| == |signers|
  {
    seq(|signers|, i requires 0 <= i < |signers| =>
      Event(session, signers[i].id, ShareRound, Wire(lib.putShare(ShareOf(lib, p, signers[i], draws[i])))))
  }

  function Shares(lib: Library, p: Package, signers: seq<Signer>, draws: seq<Draw>): seq<Str>
    requires |draws| == |signers|
  {
    seq(|signers|, i requires 0 <= i < |signers| => ShareOf(lib, p, signers[i], draws[i]))
  }

  function Signings(p: Package, signers: seq<Signer>, draws: seq<Draw>): seq<Signing>
    requires |draws| == |signers|
  {
    seq(|signers|, i requires 0 <= i < |signers| => Signing(signers[i].id, draws[i].nonce, p))
  }

  /** What the coordinator does with the shares: only a signature of 64 bytes will do. */
  function Finish(lib: Library, p: Package, shares: map<Id, Str>): (r: Result<Str, Error>)
    ensures forall bytes :: r == Ok(bytes) <==>
                            && lib.aggregate(p, shares).Some? && |bytes| == 64
                            && lib.putSignature(lib.aggregate(p, shares).value) == Some(bytes)
  {
    match lib.aggregate(p, shares)
    case None => Err(NoQuorum)
    case Some(signature) =>
      match lib.putSignature(signature)
      case None => Err(Codec)
      case Some(bytes) => if |bytes| == 64 then Ok(bytes) else Err(BadLength)
  }

  /** `c` can be written, and is read back. */
  predicate CommitmentTravels(lib: Library, c: Str) {
    lib.putCommitment(c).Some? && lib.getCommitment(lib.putCommitment(c).value) == Some(c)
  }

  predicate ShareTravels(lib: Library, s: Str) {
    lib.putShare(s).Some? && lib.getShare(lib.putShare(s).value) == Some(s)
  }

  ghost predicate CommitmentsTravel(lib: Library) {
    forall c :: CommitmentTravels(lib, c)
  }

  ghost predicate SharesTravel(lib: Library) {
    forall s :: ShareTravels(lib, s)
  }

  ghost predicate CodecOk(lib: Library) {
    CommitmentsTravel(lib) && (forall p :: Carries(lib, p)) && SharesTravel(lib)
  }

  predicate Carries(lib: Library, p: Package) {
    lib.putPackage(p).Some? && lib.getPackage(lib.putPackage(p).value) == Some(p)
  }

  /** Every participant's mailbox is registered, empty and its own. */
  ghost predicate Ready(inboxes: Inboxes, coordinator: Id, signers: seq<Signer>) {
    && coordinator == COORDINATOR && COORDINATOR in inboxes && inboxes[COORDINATOR] == []
    && (forall s :: s in signers ==> s.me == s.id && s.id in inboxes && inboxes[s.id] == [])
  }

  // ---- Mailboxes mid-ceremony ----

  /** The idle mailboxes, plus the package where it waits, plus the coordinator's queue. */
  function Busy(idle: Inboxes, waiting: set<Id>, package: Event, queue: seq<Event>): Inboxes {
    map i | i in idle :: idle[i] + (if i in waiting then [package] else []) + (if i == COORDINATOR then queue else [])
  }

  lemma BusyIdle(idle: Inboxes, package: Event)
    ensures Busy(idle, {}, package, []) == idle
  {
    forall i | i in idle ensures Busy(idle, {}, package, [])[i] == idle[i] {
      assert idle[i] + [] + [] == idle[i];
    }
  }

  lemma QueueGrows(idle: Inboxes, waiting: set<Id>, package: Event, queue: seq<Event>, e: Event)
    requires COORDINATOR in idle
    ensures var b := Busy(idle, waiting, package, queue);
            COORDINATOR in b && b[COORDINATOR := b[COORDINATOR] + [e]] == Busy(idle, waiting, package, queue + [e])
  {
    var b := Busy(idle, waiting, package, queue);
    var before := idle[COORDINATOR] + (if COORDINATOR in waiting then [package] else []);
    assert before + queue + [e] == before + (queue + [e]);
  }

  lemma QueueDrops(idle: Inboxes, package: Event, queue: seq<Event>, n: nat)
    requires COORDINATOR in idle && idle[COORDINATOR] == [] && n <= |queue|
    ensures var b := Busy(idle, {}, package, queue);
            b[COORDINATOR] == queue && b[COORDINATOR := queue[n..]] == Busy(idle, {}, package, queue[n..])
  {
    assert [] + [] + queue == queue && [] + [] + queue[n..] == queue[n..];
    var b, dropped := Busy(idle, {}, package, queue), Busy(idle, {}, package, queue[n..]);
    assert b[COORDINATOR] == queue && dropped[COORDINATOR] == queue[n..];
    assert forall i :: i in idle && i != COORDINATOR ==> b[i] == dropped[i];
  }

  lemma PackageArrives(idle: Inboxes, waiting: set<Id>, package: Event, id: Id)
    requires id in idle && id !in waiting
    ensures var b := Busy(idle, waiting, package, []);
            b[id := b[id] + [package]] == Busy(idle, waiting + {id}, package, [])
  {
    var b, more := Busy(idle, waiting, package, []), Busy(idle, waiting + {id}, package, []);
    assert idle[id] + [] + [] + [package] == idle[id] + [package] + [];
    assert b[id] + [package] == more[id];
    assert forall i :: i in idle && i != id ==> b[i] == more[i];
  }

  /** The package is ahead of anything queued after it. */
  lemma PackageTaken(idle: Inboxes, waiting: set<Id>, package: Event, queue: seq<Event>, id: Id)
    requires id in idle && idle[id] == [] && id in waiting
    ensures var b := Busy(idle, waiting, package, queue);
            && id in b && b[id] != [] && b[id][0] == package
            && b[id := b[id][1..]] == Busy(idle, waiting - {id}, package, queue)
  {
    var b := Busy(idle, waiting, package, queue);
    var rest := if id == COORDINATOR then queue else [];
    var fewer := Busy(idle, waiting - {id}, package, queue);
    assert b[id] == [package] + rest by {
      assert [] + [package] + rest == [package] + rest;
    }
    assert fewer[id] == rest by {
      assert [] + [] + rest == rest;
    }
    assert ([package] + rest)[1..] == rest;
    assert forall i :: i in idle && i != id ==> b[i] == fewer[i];
    hide Busy;
  }

  // ---- The phases ----

  method CheckDistinct(signers: seq<Signer>) returns (ok: bool)
    ensures ok <==> Distinct(signers)
  {
    var seen: set<Id> := {};
    for i := 0 to |signers|
      invariant Distinct(signers[..i])
      invariant forall k :: 0 <= k < i ==> signers[k].id in seen
      invariant forall x :: x in seen ==> exists k :: 0 <= k < i && signers[k].id == x
    {
      if signers[i].id in seen {
        return false;
      }
      seen := seen + {signers[i].id};
    }
    assert signers[..|signers|] == signers;
    return true;
  }

  ghost predicate AllWritten(lib: Library, draws: seq<Draw>) {
    forall d :: d in draws ==> lib.putCommitment(d.commitment).Some?
  }

  /** Round 1: every signer keeps a fresh nonce and mails its commitment. */
  method Commit(relay: Relay, lib: Library, session: nat, signers: seq<Signer>, draws: seq<Draw>)
    returns (error: Option<Error>, nonces: map<Id, Str>)
    requires |draws| == |signers|
    modifies relay
    ensures error != Some(DuplicateSigner)
    ensures error == Some(Codec) ==> !AllWritten(lib, draws)
    ensures COORDINATOR in old(relay.inboxes) && AllWritten(lib, draws) ==>
              && error.None?
              && relay.inboxes == old(relay.inboxes)[COORDINATOR :=
                                    old(relay.inboxes)[COORDINATOR] + CommitmentEvents(lib, session, signers, draws)]
    ensures error.None? && Distinct(signers) ==> nonces.Keys == Ids(signers) && Kept(nonces, signers, draws)
  {
    nonces := map[];
    ghost var events := CommitmentEvents(lib, session, signers, draws);
    ghost var inboxes := relay.inboxes;
    if COORDINATOR in inboxes {
      assert inboxes[COORDINATOR] + events[..0] == inboxes[COORDINATOR];
      assert inboxes == inboxes[COORDINATOR := inboxes[COORDINATOR] + events[..0]];
    }
    for i := 0 to |signers|
      invariant COORDINATOR in inboxes ==> relay.inboxes == inboxes[COORDINATOR := inboxes[COORDINATOR] + events[..i]]
      invariant COORDINATOR !in inboxes ==> i == 0 && relay.inboxes == inboxes
      invariant nonces.Keys == Ids(signers[..i])
      invariant Distinct(signers) ==>
                  forall k :: 0 <= k < i ==> signers[k].id in nonces && nonces[signers[k].id] == draws[k].nonce
    {
      var s := signers[i];
      nonces := nonces[s.id := draws[i].nonce];
      assert signers[..i + 1] == signers[..i] + [s];
      if lib.putCommitment(draws[i].commitment).None? {
        return Some(Codec), nonces;
      }
      var sent := relay.Send(COORDINATOR, CommitmentEvent(lib, session, s, draws[i]));
      if !sent {
        return Some(Transport), nonces;
      }
      assert events[..i + 1] == events[..i] + [events[i]];
      assert inboxes[COORDINATOR] + events[..i] + [events[i]] == inboxes[COORDINATOR] + events[..i + 1];
    }
    assert events[..|signers|] == events && signers[..|signers|] == signers;
    error := None;
  }

  /** Everything a queue's first `n` events carry, by sender. */
  function Gathered(queue: seq<Event>, get: Str -> Option<Str>, n: nat): map<Id, Str>
    requires n <= |queue|
  {
    if n == 0 then map[]
    else
      var value := get(queue[n - 1].payload);
      Gathered(queue, get, n - 1)[queue[n - 1].from := if value.Some? then value.value else []]
  }

  ghost predicate Expected(queue: seq<Event>, session: nat, round: Round, get: Str -> Option<Str>) {
    forall e :: e in queue ==> e.session == session && e.round == round && get(e.payload).Some?
  }

  /** The coordinator takes `n` events of one round off its mailbox. */
  method Collect(relay: Relay, me: Id, n: nat, session: nat, round: Round, get: Str -> Option<Str>)
    returns (r: Result<map<Id, Str>, Error>)
    modifies relay
    ensures me in old(relay.inboxes) && |old(relay.inboxes)[me]| >= n
              && Expected(old(relay.inboxes)[me][..n], session, round, get) ==>
              && r == Ok(Gathered(old(relay.inboxes)[me], get, n))
              && relay.inboxes == old(relay.inboxes)[me := old(relay.inboxes)[me][n..]]
    ensures r.Err? ==> r.error != DuplicateSigner
  {
    var gathered: map<Id, Str> := map[];
    ghost var inboxes := relay.inboxes;
    ghost var clean := me in inboxes && |inboxes[me]| >= n && Expected(inboxes[me][..n], session, round, get);
    for i := 0 to n
      invariant clean ==> relay.inboxes == inboxes[me := inboxes[me][i..]] && gathered == Gathered(inboxes[me], get, i)
    {
      assert clean ==> inboxes[me][i] in inboxes[me][..n];
      var event := relay.Recv(me);
      if event.None? {
        return Err(Transport);
      }
      if event.value.session != session || event.value.round != round {
        return Err(Unexpected);
      }
      var value := get(event.value.payload);
      if value.None? {
        return Err(Codec);
      }
      gathered := gathered[event.value.from := value.value];
    }
    return Ok(gathered);
  }

  /** A queue whose events come from the signers in order gathers their values. */
  lemma {:induction false} GathersInOrder(queue: seq<Event>,
        get: Str -> Option<Str>, signers: seq<Signer>, values: seq<Str>, n: nat)
    requires |queue| == |values| == |signers| && n <= |signers|
    requires forall i :: 0 <= i < |queue| ==> queue[i].from == signers[i].id && get(queue[i].payload) == Some(values[i])
    ensures Gathered(queue, get, n) == Tabulate(signers, values, n)
  {
    if n > 0 {
      GathersInOrder(queue, get, signers, values, n - 1);
    }
  }

  lemma CommitmentsArrive(lib: Library, session: nat, signers: seq<Signer>, draws: seq<Draw>)
    requires |draws| == |signers| && CommitmentsTravel(lib)
    ensures var queue := CommitmentEvents(lib, session, signers, draws);
            && Expected(queue, session, CommitmentRound, lib.getCommitment)
            && Gathered(queue, lib.getCommitment, |signers|) == Tabulate(signers, Commitments(draws), |signers|)
  {
    var queue, values := CommitmentEvents(lib, session, signers, draws), Commitments(draws);
    forall i | 0 <= i < |queue|
      ensures queue[i].session == session && queue[i].round == CommitmentRound
      ensures queue[i].from == signers[i].id && lib.getCommitment(queue[i].payload) == Some(values[i])
    {
      assert CommitmentTravels(lib, values[i]);
      assert queue[i].payload == Wire(lib.putCommitment(values[i]));
    }
    hide CommitmentEvents;
    hide Commitments;
    hide CommitmentsTravel;
    GathersInOrder(queue, lib.getCommitment, signers, values, |signers|);
  }

  lemma SharesArrive(lib: Library, session: nat, p: Package, signers: seq<Signer>, draws: seq<Draw>)
    requires |draws| == |signers| && CodecOk(lib)
    ensures var queue := ShareEvents(lib, session, p, signers, draws);
            && Expected(queue, session, ShareRound, lib.getShare)
            && Gathered(queue, lib.getShare, |signers|) == Tabulate(signers, Shares(lib, p, signers, draws), |signers|)
  {
    var queue, values := ShareEvents(lib, session, p, signers, draws), Shares(lib, p, signers, draws);
    forall i | 0 <= i < |queue|
      ensures queue[i].session == session && queue[i].round == ShareRound
      ensures queue[i].from == signers[i].id && lib.getShare(queue[i].payload) == Some(values[i])
    {
      assert ShareTravels(lib, values[i]);
      assert queue[i].payload == Wire(lib.putShare(values[i]));
    }
    hide ShareEvents;
    hide Shares;
    hide CodecOk;
    hide SharesTravel;
    hide ShareTravels;
    GathersInOrder(queue, lib.getShare, signers, values, |signers|);
  }

  function PackageEvent(lib: Library, session: nat, p: Package): Event {
    Event(session, COORDINATOR, PackageRound, Wire(lib.putPackage(p)))
  }

  lemma LastId(signers: seq<Signer>, i: nat)
    requires i < |signers| && Distinct(signers)
    ensures Ids(signers[..i + 1]) == Ids(signers[..i]) + {signers[i].id} && signers[i].id !in Ids(signers[..i])
    ensures Ids(signers[i + 1..]) == Ids(signers[i..]) - {signers[i].id} && signers[i].id in Ids(signers[i..])
  {
    assert signers[..i + 1] == signers[..i] + [signers[i]];
    assert signers[i..] == [signers[i]] + signers[i + 1..];
    forall s | s in signers[i + 1..] ensures s.id != signers[i].id {
      var k :| 0 <= k < |signers[i + 1..]| && signers[i + 1..][k] == s;
      assert signers[i + 1 + k] == s;
    }
  }

  /** The coordinator mails one package to every signer. */
  method FanOut(relay: Relay, signers: seq<Signer>, event: Event) returns (ok: bool)
    modifies relay
    ensures Distinct(signers) && (forall s :: s in signers ==> s.id in old(relay.inboxes)) ==>
              ok && relay.inboxes == Busy(old(relay.inboxes), Ids(signers), event, [])
  {
    ghost var inboxes := relay.inboxes;
    ghost var clean := Distinct(signers) && forall s :: s in signers ==> s.id in inboxes;
    BusyIdle(inboxes, event);
    for i := 0 to |signers|
      invariant clean ==> relay.inboxes == Busy(inboxes, Ids(signers[..i]), event, [])
    {
      if clean {
        LastId(signers, i);
        PackageArrives(inboxes, Ids(signers[..i]), event, signers[i].id);
      }
      ok := relay.Send(signers[i].id, event);
      if !ok {
        return;
      }
    }
    assert signers[..|signers|] == signers;
    ok := true;
  }

  /** The mailboxes and nonces a clean round 2 starts from. */
  ghost predicate Poised(inboxes: Inboxes, idle: Inboxes, lib: Library, session: nat, p: Package,
        signers: seq<Signer>, draws: seq<Draw>, nonces: map<Id, Str>)
    requires |draws| == |signers|
  {
    && Ready(idle, COORDINATOR, signers) && Distinct(signers) && CodecOk(lib)
    && inboxes == Busy(idle, Ids(signers), PackageEvent(lib, session, p), [])
    && forall i :: 0 <= i < |signers| ==> signers[i].id in nonces && nonces[signers[i].id] == draws[i].nonce
  }

  /** One signing per identifier. */
  ghost predicate OncePerSigner(signed: seq<Signing>) {
    forall i, j :: 0 <= i < j < |signed| ==> signed[i].id != signed[j].id
  }

  /** A clean round 2 before its `i`-th signer. */
  ghost predicate At(inboxes: Inboxes, idle: Inboxes, signers: seq<Signer>, package: Event, shares: seq<Event>, i: nat)
    requires i <= |signers| && |shares| == |signers|
  {
    inboxes == Busy(idle, Ids(signers[i..]), package, shares[..i])
  }

  lemma SignStep(inboxes: Inboxes, idle: Inboxes, signers: seq<Signer>, package: Event, shares: seq<Event>, i: nat)
    requires i < |signers| && |shares| == |signers|
    requires Ready(idle, COORDINATOR, signers) && Distinct(signers) && At(inboxes, idle, signers, package, shares, i)
    ensures var id := signers[i].id;
            && signers[i].me == id && id in inboxes && inboxes[id] != [] && inboxes[id][0] == package
            && COORDINATOR in inboxes && At(Mailed(inboxes, id, shares[i]), idle, signers, package, shares, i + 1)
  {
    hide Busy;
    var s := signers[i];
    assert s in signers;
    hide Distinct;
    LastId(signers, i);
    hide Ids;
    PackageTaken(idle, Ids(signers[i..]), package, shares[..i], s.id);
    QueueGrows(idle, Ids(signers[i + 1..]), package, shares[..i], shares[i]);
    QueueGrows(idle, Ids(signers[i..]), package, shares[..i], shares[i]);
    assert shares[..i + 1] == shares[..i] + [shares[i]];
  }

  lemma AtEnd(inboxes: Inboxes, idle: Inboxes, signers: seq<Signer>, package: Event, shares: seq<Event>)
    requires |shares| == |signers|
    ensures At(inboxes, idle, signers, package, shares, |signers|) ==> inboxes == Busy(idle, {}, package, shares)
  {
    assert signers[|signers|..] == [] && shares[..|signers|] == shares;
    assert Ids([]) == {};
  }

  /** One signer takes the package, spends its nonce on it and mails its share. */
  method SignOne(relay: Relay, lib: Library, session: nat, s: Signer, nonces: map<Id, Str>, ghost p: Package)
    returns (error: Option<Error>, left: map<Id, Str>, ghost signing: Option<Signing>)
    modifies relay
    ensures if signing.Some?
            then && s.id in nonces && signing.value.id == s.id && signing.value.nonce == nonces[s.id]
                 && left == nonces - {s.id}
            else error.Some? && left == nonces
    ensures error != Some(DuplicateSigner)
    ensures var inboxes := old(relay.inboxes);
            && s.id in nonces && s.me in inboxes && inboxes[s.me] != []
            && inboxes[s.me][0] == PackageEvent(lib, session, p) && Carries(lib, p)
            && COORDINATOR in inboxes ==>
              && signing == Some(Signing(s.id, nonces[s.id], p))
              && var share := lib.sign(p, nonces[s.id], s.key);
                 if share.None? then error == Some(BadShare)
                 else if lib.putShare(share.value).None? then error == Some(Codec)
                 else error.None? && relay.inboxes ==
                      Mailed(inboxes, s.me, Event(session, s.id, ShareRound, Wire(lib.putShare(share.value))))
  {
    left, signing := nonces, None;
    var event := relay.Recv(s.me);
    if event.None? {
      return Some(Transport), left, signing;
    }
    if event.value.session != session || event.value.round != PackageRound {
      return Some(Unexpected), left, signing;
    }
    var received := lib.getPackage(event.value.payload);
    if received.None? {
      return Some(Codec), left, signing;
    }
    if s.id !in nonces {
      return Some(MissingNonce), left, signing;
    }
    var nonce := nonces[s.id];
    left := nonces - {s.id};
    signing := Some(Signing(s.id, nonce, received.value));
    var share := lib.sign(received.value, nonce, s.key);
    if share.None? {
      return Some(BadShare), left, signing;
    }
    if lib.putShare(share.value).None? {
      return Some(Codec), left, signing;
    }
    var sent := relay.Send(COORDINATOR, Event(session, s.id, ShareRound, Wire(lib.putShare(share.value))));
    error := if sent then None else Some(Transport);
  }

  /** The first event leaves mailbox `me`, then `e` joins the coordinator's. */
  function Mailed(inboxes: Inboxes, me: Id, e: Event): Inboxes
    requires me in inboxes && inboxes[me] != [] && COORDINATOR in inboxes
  {
    var taken := inboxes[me := inboxes[me][1..]];
    taken[COORDINATOR := taken[COORDINATOR] + [e]]
  }

  /** Round 2: every signer in turn. Whatever the mailboxes hold, each nonce is spent at most once. */
  method SignRound(relay: Relay, lib: Library, session: nat, signers: seq<Signer>, kept: map<Id, Str>,
                   ghost idle: Inboxes, ghost p: Package, ghost draws: seq<Draw>)
    returns (error: Option<Error>, ghost signed: seq<Signing>)
    requires |draws| == |signers|
    modifies relay
    ensures OncePerSigner(signed)
    ensures forall x :: x in signed ==> x.id in kept && x.nonce == kept[x.id]
    ensures error != Some(DuplicateSigner)
    ensures Poised(old(relay.inboxes), idle, lib, session, p, signers, draws, kept) ==>
              if AllSign(lib, p, signers, draws)
              then && error.None? && signed == Signings(p, signers, draws)
                   && relay.inboxes ==
                        Busy(idle, {}, PackageEvent(lib, session, p), ShareEvents(lib, session, p, signers, draws))
              else error == Some(BadShare)
  {
    var nonces := kept;
    signed := [];
    ghost var poised := Poised(relay.inboxes, idle, lib, session, p, signers, draws, kept);
    if poised {
      StartsMidway(relay.inboxes, idle, lib, session, p, signers, draws, kept);
    }
    hide Poised;
    hide Midway;
    hide Ready;
    hide CodecOk;
    hide Distinct;
    hide Mailed;
    hide AllSign;
    hide Busy;
    hide Signings;
    hide ShareEvents;
    for i := 0 to |signers|
      invariant OneEach(signed, nonces, kept)
      invariant poised ==> Midway(relay.inboxes, idle, lib, session, p, signers, draws, nonces, signed, i)
    {
      if poised {
        MidwayStep(relay.inboxes, idle, lib, session, p, signers, draws, nonces, signed, i);
      }
      ghost var before, had := signed, nonces;
      ghost var signing;
      error, nonces, signing := SignOne(relay, lib, session, signers[i], nonces, p);
      if signing.Some? {
        signed := signed + [signing.value];
        SpentOnce(before, had, kept, signing.value);
      }
      if error.Some? {
        return;
      }
    }
    if poised {
      MidwayEnds(relay.inboxes, idle, lib, session, p, signers, draws, nonces, signed);
    }
    error := None;
  }

  /** The nonces spent so far were kept ones, each spent once, and are gone. */
  ghost predicate OneEach(signed: seq<Signing>, nonces: map<Id, Str>, kept: map<Id, Str>) {
    && (forall x :: x in signed ==> x.id !in nonces && x.id in kept && x.nonce == kept[x.id])
    && OncePerSigner(signed)
    && (forall x :: x in nonces ==> x in kept && nonces[x] == kept[x])
  }

  lemma SpentOnce(signed: seq<Signing>, nonces: map<Id, Str>, kept: map<Id, Str>, x: Signing)
    requires OneEach(signed, nonces, kept)
    requires x.id in nonces && x.nonce == nonces[x.id]
    ensures OneEach(signed + [x], nonces - {x.id}, kept)
  {
  }

  /** A clean round 2 after `i` signers. */
  ghost predicate Midway(inboxes: Inboxes, idle: Inboxes, lib: Library, session: nat, p: Package,
        signers: seq<Signer>, draws: seq<Draw>,
                         nonces: map<Id, Str>, signed: seq<Signing>, i: nat)
    requires |draws| == |signers| && i <= |signers|
  {
    && Ready(idle, COORDINATOR, signers) && Distinct(signers) && Carries(lib, p) && SharesTravel(lib)
    && At(inboxes, idle, signers, PackageEvent(lib, session, p), ShareEvents(lib, session, p, signers, draws), i)
    && Kept(nonces, signers[i..], draws[i..])
    && signed == Signings(p, signers, draws)[..i]
    && AllSign(lib, p, signers[..i], draws[..i])
  }

  lemma StartsMidway(inboxes: Inboxes, idle: Inboxes, lib: Library, session: nat, p: Package, signers: seq<Signer>,
        draws: seq<Draw>, nonces: map<Id, Str>)
    requires |draws| == |signers| && Poised(inboxes, idle, lib, session, p, signers, draws, nonces)
    ensures Midway(inboxes, idle, lib, session, p, signers, draws, nonces, [], 0)
  {
    assert signers[0..] == signers && draws[0..] == draws && ShareEvents(lib, session, p, signers, draws)[..0] == [];
  }

  lemma KeptRest(nonces: map<Id, Str>, signers: seq<Signer>, draws: seq<Draw>, i: nat)
    requires |draws| == |signers| && i < |signers| && Distinct(signers) && Kept(nonces, signers[i..], draws[i..])
    ensures Kept(nonces - {signers[i].id}, signers[i + 1..], draws[i + 1..])
  {
    var rest, all := signers[i + 1..], signers[i..];
    forall k | 0 <= k < |rest|
      ensures rest[k].id in nonces - {signers[i].id} && nonces[rest[k].id] == draws[i + 1..][k].nonce
    {
      assert rest[k] == all[k + 1] == signers[i + 1 + k] && draws[i + 1..][k] == draws[i..][k + 1];
    }
  }

  /** What the next signer will find, and where its success leads. */
  lemma MidwayStep(inboxes: Inboxes, idle: Inboxes, lib: Library, session: nat, p: Package, signers: seq<Signer>,
        draws: seq<Draw>, nonces: map<Id, Str>, signed: seq<Signing>, i: nat)
    requires |draws| == |signers| && i < |signers|
    requires Midway(inboxes, idle, lib, session, p, signers, draws, nonces, signed, i)
    ensures var s := signers[i];
            && s.id in nonces && nonces[s.id] == draws[i].nonce
            && s.me in inboxes && inboxes[s.me] != [] && inboxes[s.me][0] == PackageEvent(lib, session, p)
            && Carries(lib, p) && COORDINATOR in inboxes
            && var share := lib.sign(p, nonces[s.id], s.key);
               if share.Some?
               then lib.putShare(share.value).Some? &&
                    Midway(Mailed(inboxes, s.me, Event(session, s.id, ShareRound, Wire(lib.putShare(share.value)))),
                           idle, lib, session, p, signers, draws,
                           nonces - {s.id}, signed + [Signing(s.id, nonces[s.id], p)], i + 1)
               else !AllSign(lib, p, signers, draws)
  {
    var s, shares := signers[i], ShareEvents(lib, session, p, signers, draws);
    SignStep(inboxes, idle, signers, PackageEvent(lib, session, p), shares, i);
    EventAt(lib, session, p, signers, draws, i);
    assert signers[i..][0] == s && draws[i..][0] == draws[i];
    KeptRest(nonces, signers, draws, i);
    if lib.sign(p, draws[i].nonce, s.key).Some? {
      assert ShareTravels(lib, lib.sign(p, draws[i].nonce, s.key).value);
      assert AllSign(lib, p, signers[..i + 1], draws[..i + 1]) by {
        forall k | 0 <= k < i + 1 ensures lib.sign(p, draws[k].nonce, signers[k].key).Some? {
          assert k < i ==> signers[..i][k] == signers[k] && draws[..i][k] == draws[k];
        }
      }
    }
    hide At;
    hide Mailed;
    hide ShareEvents;
    hide Signings;
    hide Ready;
  }

  lemma MidwayEnds(inboxes: Inboxes, idle: Inboxes, lib: Library, session: nat, p: Package, signers: seq<Signer>,
        draws: seq<Draw>, nonces: map<Id, Str>, signed: seq<Signing>)
    requires |draws| == |signers|
    requires Midway(inboxes, idle, lib, session, p, signers, draws, nonces, signed, |signers|)
    ensures AllSign(lib, p, signers, draws) && signed == Signings(p, signers, draws)
    ensures inboxes == Busy(idle, {}, PackageEvent(lib, session, p), ShareEvents(lib, session, p, signers, draws))
  {
    AtEnd(inboxes, idle, signers, PackageEvent(lib, session, p), ShareEvents(lib, session, p, signers, draws));
    assert signers[..|signers|] == signers && draws[..|draws|] == draws;
    assert Signings(p, signers, draws)[..|signers|] == Signings(p, signers, draws);
    hide Busy;
  }

  lemma EventAt(lib: Library, session: nat, p: Package, signers: seq<Signer>, draws: seq<Draw>, i: nat)
    requires |draws| == |signers| && i < |signers|
    ensures var share := lib.sign(p, draws[i].nonce, signers[i].key);
            share.Some? ==>
              ShareEvents(lib, session, p, signers, draws)[i] ==
              Event(session, signers[i].id, ShareRound, Wire(lib.putShare(share.value)))
    ensures Signings(p, signers, draws)[..i] + [Signing(signers[i].id, draws[i].nonce, p)] ==
              Signings(p, signers, draws)[..i + 1]
  {
    var share := lib.sign(p, draws[i].nonce, signers[i].key);
    assert share.Some? ==> ShareOf(lib, p, signers[i], draws[i]) == share.value;
  }

  /** Round 1: commitments in, one package built. */
  method OpenRound(relay: Relay, coordinator: Id, lib: Library, session: nat, signers: seq<Signer>, message: Str,
        draws: seq<Draw>)
    returns (r: Result<Package, Error>, nonces: map<Id, Str>)
    requires |draws| == |signers|
    modifies relay
    ensures r.Err? ==> r.error != DuplicateSigner
    ensures r.Ok? && Distinct(signers) ==> Kept(nonces, signers, draws)
    ensures Distinct(signers) && Ready(old(relay.inboxes), coordinator, signers) && CommitmentsTravel(lib) ==>
              r == Ok(ThePackage(signers, draws, message)) && relay.inboxes == old(relay.inboxes)
  {
    ghost var idle := relay.inboxes;
    ghost var ready := Ready(idle, coordinator, signers) && CommitmentsTravel(lib);
    if ready {
      CommitmentsCome(idle, lib, session, signers, draws);
    }
    var failed;
    failed, nonces := Commit(relay, lib, session, signers, draws);
    if failed.Some? {
      return Err(failed.value), nonces;
    }
    if ready {
      assert coordinator == COORDINATOR && COORDINATOR in idle;
    }
    hide Ready;
    hide CommitmentsTravel;
    hide Gathered;
    hide Expected;
    hide CommitmentEvents;
    hide Tabulate;
    hide Distinct;
    hide Ids;
    var commitments := Collect(relay, coordinator, |signers|, session, CommitmentRound, lib.getCommitment);
    if commitments.Err? {
      return Err(commitments.error), nonces;
    }
    assert ready ==> relay.inboxes == idle;
    r := Ok(Package(commitments.value, message));
  }

  /** The coordinator's mailbox after round 1, ready to collect from. */
  lemma CommitmentsCome(idle: Inboxes, lib: Library, session: nat, signers: seq<Signer>, draws: seq<Draw>)
    requires |draws| == |signers|
    requires Ready(idle, COORDINATOR, signers) && CommitmentsTravel(lib)
    ensures AllWritten(lib, draws)
    ensures var full := idle[COORDINATOR] + CommitmentEvents(lib, session, signers, draws);
            && |full| == |signers| && Expected(full[..|signers|], session, CommitmentRound, lib.getCommitment)
            && Gathered(full, lib.getCommitment, |signers|) == Tabulate(signers, Commitments(draws), |signers|)
            && idle[COORDINATOR := full][COORDINATOR := full[|signers|..]] == idle
  {
    var events := CommitmentEvents(lib, session, signers, draws);
    CommitmentsArrive(lib, session, signers, draws);
    assert [] + events == events && events[..|signers|] == events && events[|signers|..] == [];
    assert AllWritten(lib, draws) by {
      forall d | d in draws ensures lib.putCommitment(d.commitment).Some? {
        assert CommitmentTravels(lib, d.commitment);
      }
    }
    hide Gathered;
    hide Expected;
    hide Tabulate;
    hide CommitmentEvents;
  }

  /** Each signer's own nonce is kept under its identifier. */
  ghost predicate Kept(nonces: map<Id, Str>, signers: seq<Signer>, draws: seq<Draw>)
    requires |draws| == |signers|
  {
    forall i :: 0 <= i < |signers| ==> signers[i].id in nonces && nonces[signers[i].id] == draws[i].nonce
  }

  /** The package out, shares in, the signature aggregated. */
  method CloseRound(relay: Relay, coordinator: Id, lib: Library, session: nat, signers: seq<Signer>, p: Package,
                    nonces: map<Id, Str>, ghost draws: seq<Draw>)
    returns (r: Result<Str, Error>, ghost signed: seq<Signing>)
    requires |draws| == |signers|
    modifies relay
    ensures r != Err(DuplicateSigner)
    ensures OncePerSigner(signed)
    ensures lib.putPackage(p).None? ==> r == Err(Codec) && signed == [] && relay.inboxes == old(relay.inboxes)
    ensures Distinct(signers) && Ready(old(relay.inboxes), coordinator, signers) && CodecOk(lib)
              && Kept(nonces, signers, draws) ==>
              if AllSign(lib, p, signers, draws)
              then && r == Finish(lib, p, Tabulate(signers, Shares(lib, p, signers, draws), |signers|))
                   && signed == Signings(p, signers, draws) && relay.inboxes == old(relay.inboxes)
              else r == Err(BadShare)
  {
    signed := [];
    ghost var idle := relay.inboxes;
    ghost var clean := Distinct(signers) && Ready(idle, coordinator, signers) && CodecOk(lib)
        && Kept(nonces, signers, draws);
    assert clean ==> Carries(lib, p);
    if lib.putPackage(p).None? {
      return Err(Codec), signed;
    }
    var packageEvent := PackageEvent(lib, session, p);
    var fanned := FanOut(relay, signers, packageEvent);
    if !fanned {
      return Err(Transport), signed;
    }
    if clean {
      PoisedNow(relay.inboxes, idle, lib, session, p, signers, draws, nonces);
      MailsCome(idle, packageEvent, lib, session, p, signers, draws);
      assert coordinator == COORDINATOR;
    }
    FinishIsNoDuplicate(lib, p);
    hide *;
    var failed;
    failed, signed := SignRound(relay, lib, session, signers, nonces, idle, p, draws);
    if failed.Some? {
      return Err(failed.value), signed;
    }
    var shares := Collect(relay, coordinator, |signers|, session, ShareRound, lib.getShare);
    if shares.Err? {
      return Err(shares.error), signed;
    }
    r := Finish(lib, p, shares.value);
  }

  /** The coordinator's mailbox after round 2, ready to collect from. */
  lemma MailsCome(idle: Inboxes, packageEvent: Event, lib: Library, session: nat, p: Package, signers: seq<Signer>,
        draws: seq<Draw>)
    requires |draws| == |signers|
    requires Ready(idle, COORDINATOR, signers) && CodecOk(lib)
    ensures var queue := ShareEvents(lib, session, p, signers, draws);
            var busy := Busy(idle, {}, packageEvent, queue);
            && COORDINATOR in busy && |busy[COORDINATOR]| == |signers|
            && Expected(busy[COORDINATOR][..|signers|], session, ShareRound, lib.getShare)
            && Gathered(busy[COORDINATOR], lib.getShare, |signers|) ==
                 Tabulate(signers, Shares(lib, p, signers, draws), |signers|)
            && busy[COORDINATOR := busy[COORDINATOR][|signers|..]] == idle
  {
    var queue := ShareEvents(lib, session, p, signers, draws);
    SharesArrive(lib, session, p, signers, draws);
    QueueDrops(idle, packageEvent, queue, |signers|);
    BusyIdle(idle, packageEvent);
    assert queue[..|signers|] == queue && queue[|signers|..] == [];
    hide Gathered;
    hide Tabulate;
    hide Expected;
    hide ShareEvents;
    hide Shares;
  }

  lemma FinishIsNoDuplicate(lib: Library, p: Package)
    ensures forall shares :: Finish(lib, p, shares) != Err(DuplicateSigner)
  {
  }

  lemma PoisedNow(inboxes: Inboxes, idle: Inboxes, lib: Library, session: nat, p: Package, signers: seq<Signer>,
        draws: seq<Draw>, nonces: map<Id, Str>)
    requires |draws| == |signers|
    requires Ready(idle, COORDINATOR, signers) && Distinct(signers) && CodecOk(lib)
    requires inboxes == Busy(idle, Ids(signers), PackageEvent(lib, session, p), [])
    requires Kept(nonces, signers, draws)
    ensures Poised(inboxes, idle, lib, session, p, signers, draws, nonces)
  {
  }

  /** The whole ceremony. A repeated identifier stops it before any nonce is drawn; no delivery, however
      wrong, makes a nonce sign twice; and when every participant's mailbox is registered, empty and its
      own, no transport or ordering error can occur: all sign the one package, the outcome is the
      library's verdict on exactly those shares, and every mailbox is left as it was found. */
  method Coordinate(relay: Relay, coordinator: Id, signers: seq<Signer>, lib: Library, session: nat, message: Str,
        draws: seq<Draw>)
    returns (r: Result<Str, Error>, ghost signed: seq<Signing>)
    requires |draws| == |signers|
    modifies relay
    ensures !Distinct(signers) ==> r == Err(DuplicateSigner) && relay.inboxes == old(relay.inboxes) && signed == []
    ensures Distinct(signers) ==> r != Err(DuplicateSigner)
    ensures OncePerSigner(signed)
    ensures Distinct(signers) && Ready(old(relay.inboxes), coordinator, signers) && CommitmentsTravel(lib)
            && lib.putPackage(ThePackage(signers, draws, message)).None? ==>
              r == Err(Codec) && signed == [] && relay.inboxes == old(relay.inboxes)
    ensures Distinct(signers) && Ready(old(relay.inboxes), coordinator, signers) && CodecOk(lib) ==>
              var p := ThePackage(signers, draws, message);
              if AllSign(lib, p, signers, draws)
              then && r == Finish(lib, p, Tabulate(signers, Shares(lib, p, signers, draws), |signers|))
                   && signed == Signings(p, signers, draws) && relay.inboxes == old(relay.inboxes)
              else r == Err(BadShare)
  {
    signed := [];
    var distinct := CheckDistinct(signers);
    if !distinct {
      return Err(DuplicateSigner), signed;
    }
    hide Distinct;
    hide Ready;
    hide CommitmentsTravel;
    hide AllSign;
    hide Finish;
    hide Tabulate;
    hide OncePerSigner;
    var built, nonces := OpenRound(relay, coordinator, lib, session, signers, message, draws);
    if built.Err? {
      return Err(built.error), signed;
    }
    r, signed := CloseRound(relay, coordinator, lib, session, signers, built.value, nonces, draws);
  }

  /** Identifiers are distinct exactly when there are as many as signers. */
  lemma {:induction false} DistinctIff(signers: seq<Signer>)
    ensures |Ids(signers)| <= |signers| && (Distinct(signers) <==> |Ids(signers)| == |signers|)
  {
    if signers != [] {
      var n := |signers| - 1;
      var front, last := signers[..n], signers[n];
      DistinctIff(front);
      assert signers == front + [last];
      assert Ids(signers) == Ids(front) + {last.id};
      if Distinct(front) && last.id !in Ids(front) {
        assert forall i :: 0 <= i < n ==> front[i].id in Ids(front);
      }
    }
  }

  // ---- What the package says ----

  lemma {:induction false} TableKeys(signers: seq<Signer>, values: seq<Str>, n: nat, id: Id)
    requires |values| == |signers| && n <= |signers|
    ensures id in Tabulate(signers, values, n) <==> exists k :: 0 <= k < n && signers[k].id == id
  {
    if n > 0 {
      TableKeys(signers, values, n - 1, id);
    }
  }

  lemma {:induction false} TableHolds(signers: seq<Signer>, values: seq<Str>, n: nat, i: nat)
    requires |values| == |signers| && i < n <= |signers| && Distinct(signers)
    ensures signers[i].id in Tabulate(signers, values, n) && Tabulate(signers, values, n)[signers[i].id] == values[i]
  {
    if i < n - 1 {
      TableHolds(signers, values, n - 1, i);
    }
  }

  /** The package everyone signs holds a commitment for exactly the signer set, each signer's own. */
  lemma {:induction false} PackageIsTheSignerSet(signers: seq<Signer>, draws: seq<Draw>, message: Str, id: Id)
    requires |draws| == |signers| && Distinct(signers)
    ensures id in ThePackage(signers, draws, message).commitments <==> id in Ids(signers)
    ensures forall i :: 0 <= i < |signers| && signers[i].id == id ==>
              ThePackage(signers, draws, message).commitments[id] == draws[i].commitment
  {
    TableKeys(signers, Commitments(draws), |signers|, id);
    forall i | 0 <= i < |signers| && signers[i].id == id
      ensures ThePackage(signers, draws, message).commitments[id] == draws[i].commitment
    {
      TableHolds(signers, Commitments(draws), |signers|, i);
    }
    hide Tabulate;
  }

  /** The shares aggregated are exactly the signer set's, each made with that signer's own nonce on `p`. */
  lemma {:induction false} SharesAreTheSignerSet(lib: Library, p: Package, signers: seq<Signer>, draws: seq<Draw>,
        id: Id)
    requires |draws| == |signers| && Distinct(signers) && AllSign(lib, p, signers, draws)
    ensures id in Tabulate(signers, Shares(lib, p, signers, draws), |signers|) <==> id in Ids(signers)
    ensures forall i :: 0 <= i < |signers| && signers[i].id == id ==>
              Some(Tabulate(signers, Shares(lib, p, signers, draws), |signers|)[id]) ==
                  lib.sign(p, draws[i].nonce, signers[i].key)
  {
    var values := Shares(lib, p, signers, draws);
    TableKeys(signers, values, |signers|, id);
    forall i | 0 <= i < |signers| && signers[i].id == id
      ensures Some(Tabulate(signers, values, |signers|)[id]) == lib.sign(p, draws[i].nonce, signers[i].key)
    {
      TableHolds(signers, values, |signers|, i);
    }
    hide Tabulate;
  }
}
