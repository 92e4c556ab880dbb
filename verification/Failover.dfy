/** The failover detector: which peers' leases have been stale long enough to take over, and what the
    grace map it carries between ticks means in terms of everything observed so far. */
module Failover {
  import opened Bytes

  datatype Lease = Lease(holder: nat, term: nat, issuedAt: nat)

  datatype Verdict = Verdict(agentId: Str, beatTerm: nat)

  datatype Dials = Dials(ttl: nat, grace: nat, maxAge: nat)

  /** What one tick sees: the observed leases with the order the map iterates in, the agents this node
      hosts, and the clock. */
  datatype Observation = Observation(snapshot: map<Str, Lease>, order: seq<Str>, hosted: set<Str>, now: nat)

  /** `order` lists each observed agent once. */
  ghost predicate Ordered(o: Observation) {
    && (forall a :: a in o.order <==> a in o.snapshot)
    && (forall i, j :: 0 <= i < j < |o.order| ==> o.order[i] != o.order[j])
  }

  function SatSub(a: nat, b: nat): nat {
    if a < b then 0 else a - b
  }

  predicate LeaseIsStale(issuedAt: nat, now: nat, ttl: nat) {
    SatSub(now, issuedAt) > ttl
  }

  predicate Fresh(d: Dials, o: Observation, a: Str) {
    a in o.snapshot && !LeaseIsStale(o.snapshot[a].issuedAt, o.now, d.ttl)
  }

  /** No observed lease is fresh: the node cannot tell a dead fleet from its own dead link. */
  predicate Blind(d: Dials, o: Observation) {
    forall a :: a in o.snapshot ==> !Fresh(d, o, a)
  }

  /** A peer, not hosted here, observed stale but not ancient. */
  predicate Candidate(d: Dials, o: Observation, a: Str) {
    && a in o.snapshot && a !in o.hosted
    && LeaseIsStale(o.snapshot[a].issuedAt, o.now, d.ttl)
    && SatSub(o.now, o.snapshot[a].issuedAt) <= d.maxAge
  }

  type Grace = map<Str, nat>

  function FirstStale(o: Observation, g: Grace, a: Str): nat {
    if a in g then g[a] else o.now
  }

  /** The grace map after a tick: the candidates, each with the first time of its streak. */
  function NextGrace(d: Dials, o: Observation, g: Grace): Grace {
    if Blind(d, o) then g
    else map a | a in o.snapshot && Candidate(d, o, a) :: FirstStale(o, g, a)
  }

  predicate Due(d: Dials, o: Observation, g: Grace, a: Str) {
    Candidate(d, o, a) && SatSub(o.now, FirstStale(o, g, a)) >= d.grace
  }

  /** The verdicts over `agents`, in that order. */
  function VerdictsFor(d: Dials, o: Observation, g: Grace, agents: seq<Str>): seq<Verdict> {
    if agents == [] then []
    else
      var a := agents[|agents| - 1];
      var before := VerdictsFor(d, o, g, agents[..|agents| - 1]);
      if Due(d, o, g, a) then before + [Verdict(a, o.snapshot[a].term + 1)] else before
  }

  function Verdicts(d: Dials, o: Observation, g: Grace): seq<Verdict> {
    if Blind(d, o) then [] else VerdictsFor(d, o, g, o.order)
  }

  /** The map the caller carries from tick to tick. */
  class GraceState {
    var entries: Grace

    constructor ()
      ensures entries == map[]
    {
      entries := map[];
    }
  }

  method DetectTakeovers(d: Dials, o: Observation, graceState: GraceState) returns (verdicts: seq<Verdict>)
    requires Ordered(o)
    modifies graceState
    ensures verdicts == Verdicts(d, o, old(graceState.entries))
    ensures graceState.entries == NextGrace(d, o, old(graceState.entries))
  {
    var blind := NothingFresh(d, o);
    if blind {
      return [];
    }
    var keepStale: Grace := map[];
    verdicts := [];
    var k := 0;
    while k < |o.order|
      invariant 0 <= k <= |o.order|
      invariant keepStale == Kept(d, o, graceState.entries, o.order[..k])
      invariant verdicts == VerdictsFor(d, o, graceState.entries, o.order[..k])
    {
      var a := o.order[k];
      assert a in o.order;
      assert o.order[..k + 1][..k] == o.order[..k];
      k := k + 1;
      if a in o.hosted {
        continue;
      }
      var lease := o.snapshot[a];
      if !LeaseIsStale(lease.issuedAt, o.now, d.ttl) {
        continue;
      }
      if SatSub(o.now, lease.issuedAt) > d.maxAge {
        continue;
      }
      var first := if a in graceState.entries then graceState.entries[a] else o.now;
      keepStale := keepStale[a := first];
      if SatSub(o.now, first) >= d.grace {
        verdicts := verdicts + [Verdict(a, lease.term + 1)];
      }
    }
    assert o.order[..k] == o.order;
    KeptIsNext(d, o, graceState.entries);
    graceState.entries := keepStale;
  }

  /** The fail-safe scan for one fresh lease. */
  method NothingFresh(d: Dials, o: Observation) returns (blind: bool)
    requires Ordered(o)
    ensures blind == Blind(d, o)
  {
    var k := 0;
    while k < |o.order|
      invariant 0 <= k <= |o.order|
      invariant forall i :: 0 <= i < k ==> !Fresh(d, o, o.order[i])
    {
      if Fresh(d, o, o.order[k]) {
        return false;
      }
      k := k + 1;
    }
    forall a | a in o.snapshot ensures !Fresh(d, o, a) {
      assert a in o.order;
      var i :| 0 <= i < |o.order| && o.order[i] == a;
    }
    return true;
  }

  /** The candidates among `agents`, as the scan collects them. */
  function Kept(d: Dials, o: Observation, g: Grace, agents: seq<Str>): Grace {
    if agents == [] then map[]
    else
      var a := agents[|agents| - 1];
      var before := Kept(d, o, g, agents[..|agents| - 1]);
      if Candidate(d, o, a) then before[a := FirstStale(o, g, a)] else before
  }

  lemma {:induction false} KeptMembers(d: Dials, o: Observation, g: Grace, agents: seq<Str>, a: Str)
    ensures a in Kept(d, o, g, agents) <==> a in agents && Candidate(d, o, a)
    ensures a in Kept(d, o, g, agents) ==> Kept(d, o, g, agents)[a] == FirstStale(o, g, a)
  {
    hide Candidate;
    if agents != [] {
      var n := |agents| - 1;
      KeptMembers(d, o, g, agents[..n], a);
      assert agents == agents[..n] + [agents[n]];
    }
  }

  lemma KeptIsNext(d: Dials, o: Observation, g: Grace)
    requires Ordered(o) && !Blind(d, o)
    ensures Kept(d, o, g, o.order) == NextGrace(d, o, g)
  {
    forall a ensures a in Kept(d, o, g, o.order) <==> a in NextGrace(d, o, g) {
      KeptMembers(d, o, g, o.order, a);
    }
    forall a | a in NextGrace(d, o, g) ensures Kept(d, o, g, o.order)[a] == NextGrace(d, o, g)[a] {
      KeptMembers(d, o, g, o.order, a);
    }
  }

  // ---- The whole history ----

  /** The grace map after a history, from an empty one. */
  function GraceAfter(d: Dials, h: seq<Observation>): Grace {
    if h == [] then map[] else NextGrace(d, h[|h| - 1], GraceAfter(d, h[..|h| - 1]))
  }

  /** The index of the last tick of `h` that was not blind. */
  function LastSighted(d: Dials, h: seq<Observation>): (r: Option<nat>)
    ensures r.Some? ==> r.value < |h| && !Blind(d, h[r.value]) && forall j :: r.value < j < |h| ==> Blind(d, h[j])
    ensures r.None? ==> forall j :: 0 <= j < |h| ==> Blind(d, h[j])
  {
    if h == [] then None
    else if !Blind(d, h[|h| - 1]) then Some(|h| - 1)
    else LastSighted(d, h[..|h| - 1])
  }

  /** `a` has been a candidate at every sighted tick from the sighted tick `i` on, and was not one at
      the sighted tick before. */
  ghost predicate StreakFrom(d: Dials, h: seq<Observation>, a: Str, i: nat) {
    && i < |h| && !Blind(d, h[i])
    && (forall j :: i <= j < |h| && !Blind(d, h[j]) ==> Candidate(d, h[j], a))
    && var before := LastSighted(d, h[..i]);
       before.None? || !Candidate(d, h[before.value], a)
  }

  lemma StreakPrefix(d: Dials, h: seq<Observation>, a: Str, i: nat)
    requires h != [] && i < |h| - 1 && (Blind(d, h[|h| - 1]) || Candidate(d, h[|h| - 1], a))
    ensures StreakFrom(d, h, a, i) <==> StreakFrom(d, h[..|h| - 1], a, i)
  {
    hide Blind;
    hide Candidate;
    var h' := h[..|h| - 1];
    assert h'[..i] == h[..i];
    assert forall j :: 0 <= j < |h'| ==> h'[j] == h[j];
  }

  /** At most one tick starts the current streak. */
  lemma StreakUnique(d: Dials, h: seq<Observation>, a: Str, i: nat, j: nat)
    requires StreakFrom(d, h, a, i) && StreakFrom(d, h, a, j)
    ensures i == j
  {
    hide Blind;
    hide Candidate;
    if i < j {
      StreakOrder(d, h, a, i, j);
    } else if j < i {
      StreakOrder(d, h, a, j, i);
    }
  }

  lemma StreakOrder(d: Dials, h: seq<Observation>, a: Str, i: nat, j: nat)
    requires StreakFrom(d, h, a, i) && i < j <= |h|
    ensures var before := LastSighted(d, h[..j]); before.Some? && Candidate(d, h[before.value], a)
  {
    hide Blind;
    hide Candidate;
    assert h[..j][i] == h[i];
  }

  /** After any history the grace map holds exactly the agents with a current candidate streak, each
      with the time its streak began. */
  lemma {:induction false} GraceIsTheStreak(d: Dials, h: seq<Observation>, a: Str)
    ensures a in GraceAfter(d, h) <==> exists i: nat :: StreakFrom(d, h, a, i)
    ensures forall i: nat :: StreakFrom(d, h, a, i) ==> GraceAfter(d, h)[a] == h[i].now
  {
    if h != [] {
      var n := |h| - 1;
      var o, h' := h[n], h[..n];
      GraceIsTheStreak(d, h', a);
      if Blind(d, o) {
        forall i: nat ensures StreakFrom(d, h, a, i) <==> StreakFrom(d, h', a, i) {
          if i < n {
            StreakPrefix(d, h, a, i);
          }
        }
      } else if Candidate(d, o, a) {
        SightedCandidate(d, h, a);
      } else {
        assert !(exists i: nat :: StreakFrom(d, h, a, i));
      }
    }
  }

  /** A sighted tick at which `a` is a candidate continues its streak, or starts one. */
  lemma SightedCandidate(d: Dials, h: seq<Observation>, a: Str)
    requires h != [] && !Blind(d, h[|h| - 1]) && Candidate(d, h[|h| - 1], a)
    requires var h' := h[..|h| - 1];
             && (a in GraceAfter(d, h') <==> exists i: nat :: StreakFrom(d, h', a, i))
             && (forall i: nat :: StreakFrom(d, h', a, i) ==> GraceAfter(d, h')[a] == h'[i].now)
    ensures a in GraceAfter(d, h) && exists i: nat :: StreakFrom(d, h, a, i)
    ensures forall i: nat :: StreakFrom(d, h, a, i) ==> GraceAfter(d, h)[a] == h[i].now
  {
    hide Blind;
    hide Candidate;
    var n := |h| - 1;
    var h' := h[..n];
    SightedGrace(d, h[n], GraceAfter(d, h'), a);
    if i: nat :| StreakFrom(d, h', a, i) {
      StreakPrefix(d, h, a, i);
      forall j: nat | StreakFrom(d, h, a, j) ensures j == i {
        StreakUnique(d, h, a, i, j);
      }
    } else {
      NoStreakBefore(d, h', a);
      assert StreakFrom(d, h, a, n);
      forall j: nat | StreakFrom(d, h, a, j) ensures j == n {
        StreakUnique(d, h, a, n, j);
      }
    }
  }

  /** Without a current streak, the last sighted tick, if any, was not a candidate tick. */
  lemma {:induction false} NoStreakBefore(d: Dials, h: seq<Observation>, a: Str)
    requires !(exists i: nat :: StreakFrom(d, h, a, i))
    ensures var last := LastSighted(d, h); last.None? || !Candidate(d, h[last.value], a)
  {
    hide Candidate;
    var last := LastSighted(d, h);
    if last.Some? && Candidate(d, h[last.value], a) {
      var i := StreakStart(d, h, a, last.value);
    }
  }

  /** Walk back from a candidate tick to the start of its streak. */
  lemma {:induction false} StreakStart(d: Dials, h: seq<Observation>, a: Str, k: nat) returns (i: nat)
    requires k < |h| && !Blind(d, h[k])
    requires forall j :: k <= j < |h| && !Blind(d, h[j]) ==> Candidate(d, h[j], a)
    ensures StreakFrom(d, h, a, i)
  {
    hide Candidate;
    hide Blind;
    var before := LastSighted(d, h[..k]);
    if before.Some? && Candidate(d, h[before.value], a) {
      assert forall j :: before.value < j < k ==> h[..k][j] == h[j];
      i := StreakStart(d, h, a, before.value);
    } else {
      i := k;
    }
  }

  // ---- What a verdict means ----

  lemma {:induction false} VerdictsMember(d: Dials, o: Observation, g: Grace, agents: seq<Str>, v: Verdict)
    ensures v in VerdictsFor(d, o, g, agents) <==>
            v.agentId in agents && Due(d, o, g, v.agentId) && v.beatTerm == o.snapshot[v.agentId].term + 1
  {
    if agents != [] {
      var n := |agents| - 1;
      VerdictsMember(d, o, g, agents[..n], v);
      assert agents == agents[..n] + [agents[n]];
    }
  }

  /** The verdicts come in the order of the snapshot, one for an agent at most. */
  lemma {:induction false} VerdictsInOrder(d: Dials, o: Observation, g: Grace, agents: seq<Str>, i: nat, j: nat,
        p: nat, q: nat)
    requires forall k, l :: 0 <= k < l < |agents| ==> agents[k] != agents[l]
    requires i < j < |VerdictsFor(d, o, g, agents)| && p < |agents| && q < |agents|
    requires agents[p] == VerdictsFor(d, o, g, agents)[i].agentId
    requires agents[q] == VerdictsFor(d, o, g, agents)[j].agentId
    ensures p < q
  {
    var n := |agents| - 1;
    var before := VerdictsFor(d, o, g, agents[..n]);
    assert before[i] in before;
    VerdictsMember(d, o, g, agents[..n], before[i]);
    hide Due;
    if j < |before| {
      assert before[j] in before;
      VerdictsMember(d, o, g, agents[..n], before[j]);
      VerdictsInOrder(d, o, g, agents[..n], i, j, p, q);
    }
  }

  /** A blind tick is no evidence: it emits nothing and moves no timer. */
  lemma BlindTickIsInert(d: Dials, h: seq<Observation>, o: Observation)
    requires Blind(d, o)
    ensures Verdicts(d, o, GraceAfter(d, h)) == [] && GraceAfter(d, h + [o]) == GraceAfter(d, h)
  {
    assert (h + [o])[..|h|] == h;
  }

  /** Someone is seen alive: a lease no older than the ttl. */
  ghost predicate Sighted(d: Dials, o: Observation) {
    exists b :: b in o.snapshot && o.now <= o.snapshot[b].issuedAt + d.ttl
  }

  /** From the sighted tick `i` on, at every sighted tick, `a` is observed, hosted elsewhere, and its lease is older
      than the ttl and no older than the maximum age. */
  ghost predicate DeadFrom(d: Dials, h: seq<Observation>, a: Str, i: nat) {
    && i < |h| && Sighted(d, h[i])
    && forall j :: i <= j < |h| && Sighted(d, h[j]) ==>
         && a in h[j].snapshot && a !in h[j].hosted
         && h[j].snapshot[a].issuedAt + d.ttl < h[j].now <= h[j].snapshot[a].issuedAt + d.maxAge
  }

  /** After any history, the takeover of `v.agentId` is ordered exactly when the tick is sighted, the term is the
      observed one plus one, and, counted from the first tick since which the agent has been dead at every sighted
      one, the grace span has passed. */
  lemma VerdictIff(d: Dials, h: seq<Observation>, o: Observation, v: Verdict)
    requires Ordered(o)
    ensures v in Verdicts(d, o, GraceAfter(d, h)) <==>
            && Sighted(d, o) && v.agentId in o.snapshot && v.beatTerm == o.snapshot[v.agentId].term + 1
            && exists i: nat ::
                 && DeadFrom(d, h + [o], v.agentId, i)
                 && (forall k: nat :: k < i ==> !DeadFrom(d, h + [o], v.agentId, k))
                 && (d.grace == 0 || (h + [o])[i].now + d.grace <= o.now)
  {
    var all := h + [o];
    VerdictByStreak(d, h, o, v);
    SightedIs(d, o);
    forall i: nat ensures StreakFrom(d, all, v.agentId, i) <==>
                          DeadFrom(d, all, v.agentId, i) && forall k: nat :: k < i ==> !DeadFrom(d, all, v.agentId, k)
    {
      StreakIs(d, all, v.agentId, i);
    }
    hide StreakFrom;
    hide DeadFrom;
    hide Verdicts;
    hide Blind;
    hide Sighted;
  }

  lemma SightedIs(d: Dials, o: Observation)
    ensures Sighted(d, o) <==> !Blind(d, o)
  {
    if a :| a in o.snapshot && Fresh(d, o, a) {
      assert o.now <= o.snapshot[a].issuedAt + d.ttl;
    }
    if a :| a in o.snapshot && o.now <= o.snapshot[a].issuedAt + d.ttl {
      assert Fresh(d, o, a);
    }
  }

  ghost predicate CandidateFrom(d: Dials, h: seq<Observation>, a: Str, i: nat) {
    i < |h| && !Blind(d, h[i]) && forall j :: i <= j < |h| && !Blind(d, h[j]) ==> Candidate(d, h[j], a)
  }

  lemma DeadFromIs(d: Dials, h: seq<Observation>, a: Str, i: nat)
    ensures DeadFrom(d, h, a, i) <==> CandidateFrom(d, h, a, i)
  {
    forall j | 0 <= j < |h| ensures Sighted(d, h[j]) <==> !Blind(d, h[j]) {
      SightedIs(d, h[j]);
    }
    hide Blind;
    hide Sighted;
    forall j | 0 <= j < |h|
      ensures Candidate(d, h[j], a) <==>
              && a in h[j].snapshot && a !in h[j].hosted
              && h[j].snapshot[a].issuedAt + d.ttl < h[j].now <= h[j].snapshot[a].issuedAt + d.maxAge
    {
    }
    hide Candidate;
  }

  /** A streak starts where the agent is dead from, and is not from any earlier tick. */
  lemma StreakIs(d: Dials, h: seq<Observation>, a: Str, i: nat)
    ensures StreakFrom(d, h, a, i) <==> DeadFrom(d, h, a, i) && forall k: nat :: k < i ==> !DeadFrom(d, h, a, k)
  {
    forall k: nat ensures DeadFrom(d, h, a, k) <==> CandidateFrom(d, h, a, k) {
      DeadFromIs(d, h, a, k);
    }
    hide DeadFrom;
    if StreakFrom(d, h, a, i) {
      forall k: nat | k < i ensures !CandidateFrom(d, h, a, k) {
        NotBefore(d, h, a, i, k);
      }
    }
    if CandidateFrom(d, h, a, i) && forall k: nat :: k < i ==> !CandidateFrom(d, h, a, k) {
      FirstStarts(d, h, a, i);
    }
    hide CandidateFrom;
    hide Blind;
    hide Candidate;
    hide LastSighted;
    assert StreakFrom(d, h, a, i) ==> CandidateFrom(d, h, a, i) by {
      StreakIsCandidate(d, h, a, i);
    }
  }

  lemma StreakIsCandidate(d: Dials, h: seq<Observation>, a: Str, i: nat)
    ensures StreakFrom(d, h, a, i) ==> CandidateFrom(d, h, a, i)
  {
    hide Blind;
    hide Candidate;
  }

  lemma NotBefore(d: Dials, h: seq<Observation>, a: Str, i: nat, k: nat)
    requires StreakFrom(d, h, a, i) && k < i
    ensures !CandidateFrom(d, h, a, k)
  {
    hide Blind;
    hide Candidate;
    var before := LastSighted(d, h[..i]);
    assert h[..i][k] == h[k];
    assert before.Some? ==> h[..i][before.value] == h[before.value];
    assert before.Some? && k > before.value ==> Blind(d, h[..i][k]);
  }

  lemma FirstStarts(d: Dials, h: seq<Observation>, a: Str, i: nat)
    requires CandidateFrom(d, h, a, i) && forall k: nat :: k < i ==> !CandidateFrom(d, h, a, k)
    ensures StreakFrom(d, h, a, i)
  {
    hide Blind;
    hide Candidate;
    var before := LastSighted(d, h[..i]);
    assert forall j :: 0 <= j < i ==> h[..i][j] == h[j];
    hide CandidateFrom;
    if before.Some? && Candidate(d, h[before.value], a) {
      EarlierStart(d, h, a, i, before.value);
    }
  }

  lemma EarlierStart(d: Dials, h: seq<Observation>, a: Str, i: nat, k: nat)
    requires CandidateFrom(d, h, a, i) && k < i && !Blind(d, h[k]) && Candidate(d, h[k], a)
    requires forall j :: k < j < i ==> Blind(d, h[j])
    ensures CandidateFrom(d, h, a, k)
  {
    hide Blind;
    hide Candidate;
  }

  /** The same by candidates and streaks, as the detector tracks them. */
  lemma VerdictByStreak(d: Dials, h: seq<Observation>, o: Observation, v: Verdict)
    requires Ordered(o)
    ensures v in Verdicts(d, o, GraceAfter(d, h)) <==>
            && !Blind(d, o) && v.agentId in o.snapshot && v.beatTerm == o.snapshot[v.agentId].term + 1
            && exists i: nat :: StreakFrom(d, h + [o], v.agentId, i)
                                && (d.grace == 0 || (h + [o])[i].now + d.grace <= o.now)
  {
    var all, g, a := h + [o], GraceAfter(d, h), v.agentId;
    assert all[..|h|] == h;
    VerdictsMember(d, o, g, o.order, v);
    GraceIsTheStreak(d, all, a);
    if !Blind(d, o) {
      SightedGrace(d, o, g, a);
      if i: nat :| StreakFrom(d, all, a, i) {
        assert Candidate(d, all[|h|], a);
      }
    }
  }

  lemma SightedGrace(d: Dials, o: Observation, g: Grace, a: Str)
    requires !Blind(d, o)
    ensures a in NextGrace(d, o, g) <==> Candidate(d, o, a)
    ensures Candidate(d, o, a) ==> NextGrace(d, o, g)[a] == FirstStale(o, g, a)
  {
  }

  /** So behind every verdict there is a tick at least the grace span ago since which no sighted tick
      observed a fresh lease of the agent, and its last observed lease is stale but not ancient. */
  lemma VerdictMeansDead(d: Dials, h: seq<Observation>, o: Observation, v: Verdict) returns (i: nat)
    requires Ordered(o) && v in Verdicts(d, o, GraceAfter(d, h))
    ensures i <= |h| && SatSub(o.now, (h + [o])[i].now) >= d.grace
    ensures forall j :: i <= j <= |h| && !Blind(d, (h + [o])[j]) ==>
              v.agentId in (h + [o])[j].snapshot && !Fresh(d, (h + [o])[j], v.agentId)
    ensures v.agentId in o.snapshot && v.agentId !in o.hosted
    ensures d.ttl < SatSub(o.now, o.snapshot[v.agentId].issuedAt) <= d.maxAge
    ensures v.beatTerm == o.snapshot[v.agentId].term + 1
  {
    VerdictByStreak(d, h, o, v);
    i :| StreakFrom(d, h + [o], v.agentId, i) && (d.grace == 0 || (h + [o])[i].now + d.grace <= o.now);
    assert Candidate(d, (h + [o])[|h|], v.agentId);
  }

  /** One fresh sighting resets the dwell: no verdict follows it within the grace span. */
  lemma RecoveryClears(d: Dials, h: seq<Observation>, o: Observation, v: Verdict, k: nat)
    requires Ordered(o) && v in Verdicts(d, o, GraceAfter(d, h))
    requires k < |h| && !Blind(d, h[k]) && Fresh(d, h[k], v.agentId)
    requires forall j :: k <= j < |h| ==> h[j].now >= h[k].now
    ensures SatSub(o.now, h[k].now) >= d.grace
  {
    var i := VerdictMeansDead(d, h, o, v);
    assert (h + [o])[k] == h[k];
    assert i > k;
    assert i < |h| ==> (h + [o])[i] == h[i];
  }

  // ---- Backoff ----

  predicate BackedOff(v: Verdict, backoff: map<Str, nat>, now: nat, backoffSecs: nat) {
    v.agentId in backoff && SatSub(now, backoff[v.agentId]) < backoffSecs
  }

  /** Drop the verdicts of agents whose last failed takeover is too recent, keeping the order. */
  function DropBackedOff(verdicts: seq<Verdict>, backoff: map<Str, nat>, now: nat, backoffSecs: nat): seq<Verdict> {
    if verdicts == [] then []
    else
      var v := verdicts[0];
      var rest := DropBackedOff(verdicts[1..], backoff, now, backoffSecs);
      if BackedOff(v, backoff, now, backoffSecs) then rest else [v] + rest
  }

  /** Nothing is dropped but what is inside its window, nothing inside its window stays. */
  lemma {:induction false} BackoffDropsExactly(verdicts: seq<Verdict>, backoff: map<Str, nat>, now: nat,
        backoffSecs: nat, v: Verdict)
    ensures v in DropBackedOff(verdicts, backoff, now, backoffSecs) <==>
              v in verdicts && !BackedOff(v, backoff, now, backoffSecs)
  {
    if verdicts != [] {
      BackoffDropsExactly(verdicts[1..], backoff, now, backoffSecs, v);
    }
  }

  /** And the order is kept: what survives of a list is what survives of its front, then of its back. */
  lemma {:induction false} BackoffKeepsOrder(front: seq<Verdict>, back: seq<Verdict>, backoff: map<Str, nat>,
        now: nat, backoffSecs: nat)
    ensures DropBackedOff(front + back, backoff, now, backoffSecs) ==
            DropBackedOff(front, backoff, now, backoffSecs) + DropBackedOff(back, backoff, now, backoffSecs)
  {
    if front == [] {
      assert front + back == back;
    } else {
      assert (front + back)[1..] == front[1..] + back;
      BackoffKeepsOrder(front[1..], back, backoff, now, backoffSecs);
    }
  }

  /** The last failed takeover of `a` is less than `backoffSecs` ago. */
  predicate Waits(a: Str, backoff: map<Str, nat>, now: nat, backoffSecs: nat) {
    a in backoff && 0 < backoffSecs && now < backoff[a] + backoffSecs
  }

  /** One stuck agent cannot hold the single takeover slot: what is left is headed by the first verdict
      outside its backoff window, if there is one. */
  lemma {:induction false} StuckAgentYields(verdicts: seq<Verdict>, backoff: map<Str, nat>, now: nat,
        backoffSecs: nat, k: nat)
    requires k < |verdicts|
    requires forall j :: 0 <= j < k ==> Waits(verdicts[j].agentId, backoff, now, backoffSecs)
    requires !Waits(verdicts[k].agentId, backoff, now, backoffSecs)
    ensures var left := DropBackedOff(verdicts, backoff, now, backoffSecs); left != [] && left[0] == verdicts[k]
  {
    var front, back := verdicts[..k], verdicts[k..];
    assert verdicts == front + back && back[0] == verdicts[k];
    BackoffKeepsOrder(front, back, backoff, now, backoffSecs);
    NoneLeft(front, backoff, now, backoffSecs);
  }

  lemma NoneLeft(verdicts: seq<Verdict>, backoff: map<Str, nat>, now: nat, backoffSecs: nat)
    requires forall v :: v in verdicts ==> BackedOff(v, backoff, now, backoffSecs)
    ensures DropBackedOff(verdicts, backoff, now, backoffSecs) == []
  {
    hide BackedOff;
    var left := DropBackedOff(verdicts, backoff, now, backoffSecs);
    if left != [] {
      BackoffDropsExactly(verdicts, backoff, now, backoffSecs, left[0]);
    }
  }
}
