/** Changing the configuration across a restart: exactly which pairs of configurations can give two live
    tenants one gateway port. */
module FleetReload {
  import opened Bytes
  import opened Fleet

  /** Some run under the configurations of `cfgs` ends with `live` in memory and on file, under `cfg`. */
  ghost predicate Reached(cfgs: set<Config>, cfg: Config, live: Live) {
    exists first, ops, states :: ReachedBy(cfgs, cfg, live, first, ops, states)
  }

  ghost predicate ReachedBy(cfgs: set<Config>, cfg: Config, live: Live, first: Config, ops: seq<Op>,
      states: seq<Store>) {
    && Uses(cfgs, first, ops) && IsRun(first, ops, states)
    && ConfigAfter(first, ops) == cfg
    && states[|ops|].live == live && Loaded(states[|ops|].file) == live
  }

  /** Some run under the configurations of `cfgs` has two live tenants on one port. */
  ghost predicate CanCollide(cfgs: set<Config>) {
    exists first, ops, states, a, b :: Collides(cfgs, first, ops, states, a, b)
  }

  ghost predicate Collides(cfgs: set<Config>, first: Config, ops: seq<Op>, states: seq<Store>, a: Str, b: Str) {
    && Uses(cfgs, first, ops) && IsRun(first, ops, states)
    && var live := states[|ops|].live;
    && a in live && b in live && a != b && live[a].gatewayPort == live[b].gatewayPort
  }

  // ---- Building runs ----

  lemma RunGrows(cfgs: set<Config>, first: Config, ops: seq<Op>, states: seq<Store>, op: Op, s: Store)
    requires Uses(cfgs, first, ops) && IsRun(first, ops, states)
    requires op.Reload? ==> op.cfg in cfgs
    requires OpStep(ConfigAfter(first, ops), states[|ops|], op, s)
    ensures Uses(cfgs, first, ops + [op]) && IsRun(first, ops + [op], states + [s])
    ensures ConfigAfter(first, ops + [op]) == if op.Reload? then op.cfg else ConfigAfter(first, ops)
  {
    hide OpStep;
    var ops', states' := ops + [op], states + [s];
    assert ops'[..|ops|] == ops;
    forall i | 0 <= i < |ops'|
      ensures OpStep(ConfigAfter(first, ops'[..i]), states'[i], ops'[i], states'[i + 1])
    {
      assert i < |ops| ==> ops'[..i] == ops[..i] && states'[i] == states[i] && states'[i + 1] == states[i + 1];
    }
  }

  lemma ReachStep(cfgs: set<Config>, cfg: Config, live: Live, op: Op, live': Live, file': Option<Live>)
    requires Reached(cfgs, cfg, live)
    requires op.Reload? ==> op.cfg in cfgs
    requires forall file :: Loaded(file) == live ==>
               Loaded(StepFile(file, file')) == live'
                   && OpStep(cfg, Store(live, file), op, Store(live', StepFile(file, file')))
    ensures Reached(cfgs, if op.Reload? then op.cfg else cfg, live')
  {
    var first, ops, states: seq<Store> :| ReachedBy(cfgs, cfg, live, first, ops, states);
    var s: Store := states[|ops|];
    var s' := Store(live', StepFile(s.file, file'));
    assert s == Store(live, s.file);
    RunGrows(cfgs, first, ops, states, op, s');
    assert ReachedBy(cfgs, if op.Reload? then op.cfg else cfg, live', first, ops + [op], states + [s']);
  }

  /** The file a step writes, or the one it leaves. */
  function StepFile(file: Option<Live>, written: Option<Live>): Option<Live> {
    if written.Some? then written else file
  }

  lemma ReachStart(cfgs: set<Config>, cfg: Config)
    requires cfg in cfgs && forall c :: c in cfgs ==> ValidConfig(c)
    ensures Reached(cfgs, cfg, map[])
  {
    assert ReachedBy(cfgs, cfg, map[], cfg, [], [Store(map[], None)]);
  }

  lemma ReachReload(cfgs: set<Config>, cfg: Config, cfg': Config, live: Live)
    requires Reached(cfgs, cfg, live) && cfg' in cfgs
    ensures Reached(cfgs, cfg', live)
  {
    ReachStep(cfgs, cfg, live, Reload(cfg'), live, None);
  }

  lemma ReachAllocate(cfgs: set<Config>, cfg: Config, live: Live, agent: Str, t: Tenant)
    requires Reached(cfgs, cfg, live) && agent !in live
    requires LiveCount(live) < cfg.maxTenants && IsSlotFor(cfg, live, agent, t)
    ensures Reached(cfgs, cfg, live[agent := t])
  {
    var live' := live[agent := t];
    forall file | Loaded(file) == live
      ensures OpStep(cfg, Store(live, file), Allocate(agent, true), Store(live', StepFile(file, Some(live'))))
    {
      assert AllocateStep(cfg, true, Store(live, file), agent, true, Store(live', Some(live')), Ok(t));
    }
    ReachStep(cfgs, cfg, live, Allocate(agent, true), live', Some(live'));
  }

  lemma ReachRelease(cfgs: set<Config>, cfg: Config, live: Live, agent: Str)
    requires Reached(cfgs, cfg, live) && agent in live
    ensures Reached(cfgs, cfg, live - {agent})
  {
    var live' := live - {agent};
    forall file | Loaded(file) == live
      ensures OpStep(cfg, Store(live, file), Release(agent, true), Store(live', StepFile(file, Some(live'))))
    {
      assert ReleaseStep(true, Store(live, file), agent, true, Store(live', Some(live')), Some(live[agent]));
    }
    ReachStep(cfgs, cfg, live, Release(agent, true), live', Some(live'));
  }

  /** All tenants but one can leave. */
  lemma {:induction false} ReachAlone(cfgs: set<Config>, cfg: Config, live: Live, keep: Str)
    requires Reached(cfgs, cfg, live) && keep in live
    ensures Reached(cfgs, cfg, map[keep := live[keep]])
    decreases |live|
  {
    hide Reached;
    if other :| other in live && other != keep {
      ReachRelease(cfgs, cfg, live, other);
      assert (live - {other}).Keys == live.Keys - {other};
      ReachAlone(cfgs, cfg, live - {other}, keep);
    } else {
      assert live == map[keep := live[keep]];
    }
  }

  // ---- Filling a pool ----

  /** A name for the filler at offset `i`. */
  function Filler(i: nat): Str {
    seq(i + 1, _ => 0)
  }

  lemma FillersDiffer(i: nat, j: nat)
    requires i != j
    ensures Filler(i) != Filler(j)
  {
    assert |Filler(i)| == i + 1 && |Filler(j)| == j + 1;
  }

  predicate Taken(cfg: Config, start: Live, i: nat) {
    cfg.baseCid + i in Cids(start)
  }

  /** `start`, and a filler at every free offset below `n`. */
  function Fill(cfg: Config, start: Live, n: nat): Live {
    if n == 0 then start
    else if Taken(cfg, start, n - 1) then Fill(cfg, start, n - 1)
    else Fill(cfg, start, n - 1)[Filler(n - 1) := Slot(cfg, Filler(n - 1), n - 1)]
  }

  /** How many of the offsets below `n` `start` already holds. */
  function Held(cfg: Config, start: Live, n: nat): (h: nat)
    ensures h <= n
  {
    if n == 0 then 0 else Held(cfg, start, n - 1) + if Taken(cfg, start, n - 1) then 1 else 0
  }

  ghost predicate NoFillers(start: Live) {
    forall i: nat :: Filler(i) !in start
  }

  lemma {:induction false} FillFresh(cfg: Config, start: Live, n: nat, i: nat)
    requires NoFillers(start) && i >= n
    ensures Filler(i) !in Fill(cfg, start, n)
  {
    hide Taken;
    if n > 0 {
      FillFresh(cfg, start, n - 1, i);
      FillersDiffer(i, n - 1);
      hide Filler;
    }
  }

  lemma {:induction false} FillCount(cfg: Config, start: Live, n: nat)
    requires NoFillers(start)
    ensures |Fill(cfg, start, n)| == |start| + n - Held(cfg, start, n)
  {
    hide Taken;
    hide Filler;
    hide NoFillers;
    if n > 0 {
      var before := Fill(cfg, start, n - 1);
      FillCount(cfg, start, n - 1);
      FillFresh(cfg, start, n - 1, n - 1);
      assert Fill(cfg, start, n) == if Taken(cfg, start, n - 1) then before
                                    else before[Filler(n - 1) := Slot(cfg, Filler(n - 1), n - 1)];
      hide Fill;
      hide Slot;
    }
  }

  lemma {:induction false} FillKeeps(cfg: Config, start: Live, n: nat, a: Str)
    requires NoFillers(start) && a in start
    ensures a in Fill(cfg, start, n) && Fill(cfg, start, n)[a] == start[a]
  {
    hide Taken;
    if n > 0 {
      FillKeeps(cfg, start, n - 1, a);
      assert Filler(n - 1) != a;
      hide Filler;
    }
  }

  lemma FillLast(cfg: Config, start: Live, n: nat)
    requires !Taken(cfg, start, n)
    ensures Filler(n) in Fill(cfg, start, n + 1) && Fill(cfg, start, n + 1)[Filler(n)] == Slot(cfg, Filler(n), n)
  {
    hide Taken;
    hide Filler;
  }

  /** Every offset below `n` is occupied, and no other CID but those `start` held. */
  lemma {:induction false} FillOccupies(cfg: Config, start: Live, n: nat, cid: nat)
    requires NoFillers(start)
    ensures cid in Cids(Fill(cfg, start, n)) <==> cid in Cids(start) || cfg.baseCid <= cid < cfg.baseCid + n
  {
    hide Cids;
    hide Filler;
    hide NoFillers;
    if n > 0 {
      var before := Fill(cfg, start, n - 1);
      FillOccupies(cfg, start, n - 1, cid);
      FillFresh(cfg, start, n - 1, n - 1);
      assert Fill(cfg, start, n) == if Taken(cfg, start, n - 1) then before
                                    else before[Filler(n - 1) := Slot(cfg, Filler(n - 1), n - 1)];
      hide Fill;
      CidsGrow(before, Filler(n - 1), Slot(cfg, Filler(n - 1), n - 1), cid);
    }
  }

  lemma CidsGrow(live: Live, agent: Str, t: Tenant, cid: nat)
    requires agent !in live
    ensures cid in Cids(live[agent := t]) <==> cid in Cids(live) || cid == t.guestCid
  {
    var live' := live[agent := t];
    if cid in Cids(live) {
      var a :| a in live && live[a].guestCid == cid;
      assert live'[a].guestCid == cid;
    }
    assert live'[agent].guestCid == t.guestCid;
  }

  /** With room below the ceiling and in the `u32` range, the pool can be filled up to any offset. */
  lemma {:induction false} ReachFill(cfgs: set<Config>, cfg: Config, start: Live, n: nat)
    requires Reached(cfgs, cfg, start) && NoFillers(start) && ValidConfig(cfg)
    requires |start| + n - Held(cfg, start, n) <= cfg.maxTenants
    requires n > 0 ==> cfg.baseCid + n - 1 <= U32_MAX && cfg.gatewayPortBase + n - 1 <= U32_MAX
    ensures Reached(cfgs, cfg, Fill(cfg, start, n))
  {
    hide Reached;
    hide NoFillers;
    hide Filler;
    if n > 0 {
      ReachFill(cfgs, cfg, start, n - 1);
      if !Taken(cfg, start, n - 1) {
        ReachOneMore(cfgs, cfg, start, n - 1);
      }
      hide Taken;
    }
  }

  lemma ReachOneMore(cfgs: set<Config>, cfg: Config, start: Live, n: nat)
    requires Reached(cfgs, cfg, Fill(cfg, start, n)) && NoFillers(start) && !Taken(cfg, start, n) && ValidConfig(cfg)
    requires |start| + n - Held(cfg, start, n) < cfg.maxTenants
    requires cfg.baseCid + n <= U32_MAX && cfg.gatewayPortBase + n <= U32_MAX
    ensures Reached(cfgs, cfg, Fill(cfg, start, n + 1))
  {
    hide Reached;
    hide NoFillers;
    hide Filler;
    hide Taken;
    hide Held;
    hide IsSlotFor;
    var live, agent := Fill(cfg, start, n), Filler(n);
    var t := Slot(cfg, agent, n);
    assert Fill(cfg, start, n + 1) == live[agent := t];
    hide Fill;
    hide Slot;
    FillFresh(cfg, start, n, n);
    FillCount(cfg, start, n);
    NextSlot(cfg, start, n);
    ReachAllocate(cfgs, cfg, live, agent, t);
  }

  lemma NextSlot(cfg: Config, start: Live, n: nat)
    requires NoFillers(start) && !Taken(cfg, start, n)
    requires cfg.baseCid + n <= U32_MAX && cfg.gatewayPortBase + n <= U32_MAX
    ensures IsSlotFor(cfg, Fill(cfg, start, n), Filler(n), Slot(cfg, Filler(n), n))
  {
    hide NoFillers;
    hide Filler;
    hide Cids;
    hide Fill;
    forall cid: nat
      ensures cid in Cids(Fill(cfg, start, n)) <==> cid in Cids(start) || cfg.baseCid <= cid < cfg.baseCid + n
    {
      FillOccupies(cfg, start, n, cid);
    }
  }

  // ---- The room a collision needs ----

  /** How much lower the ports of `lo` start. */
  function PortGap(lo: Config, hi: Config): nat
    requires lo.gatewayPortBase <= hi.gatewayPortBase
  {
    hi.gatewayPortBase - lo.gatewayPortBase
  }

  /** Room for a tenant of `lo` on the first port of `hi`, and for a tenant of `hi` beside it: when `hi`
      admits only one tenant it must be the first, and then either fills a place below or takes one more. */
  predicate Room(lo: Config, hi: Config)
    requires lo.gatewayPortBase <= hi.gatewayPortBase
  {
    var gap := PortGap(lo, hi);
    && gap < lo.maxTenants && lo.baseCid + gap <= U32_MAX && hi.maxTenants >= 1
    && (hi.maxTenants >= 2 || gap + 2 <= lo.maxTenants || lo.baseCid <= hi.baseCid < lo.baseCid + gap)
  }

  /** With two places under `hi`: the tenant of `lo` comes first, its fillers leave, `hi` takes over. */
  lemma CollideLowFirst(lo: Config, hi: Config)
    requires ValidConfig(lo) && ValidConfig(hi) && lo.gatewayPortBase <= hi.gatewayPortBase
    requires PortShift(lo) != PortShift(hi) && Room(lo, hi) && hi.maxTenants >= 2
    ensures CanCollide({lo, hi})
  {
    hide Reached;
    hide NoFillers;
    hide Filler;
    hide Held;
    hide IsSlotFor;
    hide CanCollide;
    var gap, none: Live := PortGap(lo, hi), map[];
    ReachStart({lo, hi}, lo);
    NoneHeld(lo, gap + 1);
    ReachFill({lo, hi}, lo, none, gap + 1);
    FillLast(lo, none, gap);
    hide Fill;
    var low, agent := Slot(lo, Filler(gap), gap), Filler(gap);
    ReachAlone({lo, hi}, lo, Fill(lo, none, gap + 1), agent);
    var alone := map[agent := low];
    ReachReload({lo, hi}, lo, hi, alone);
    var high := Slot(hi, [1], 0);
    FillerIsNotOne(gap);
    SlotBeside(hi, agent, low);
    ReachAllocate({lo, hi}, hi, alone, [1], high);
    CollideAt({lo, hi}, hi, alone[[1] := high], agent, [1]);
  }

  lemma FillerIsNotOne(i: nat)
    ensures Filler(i) != [1]
  {
    assert Filler(i)[0] == 0;
  }

  /** Beside a tenant that does not hold its base CID, a configuration hands out its first slot. */
  lemma SlotBeside(cfg: Config, agent: Str, t: Tenant)
    requires ValidConfig(cfg) && t.guestCid != cfg.baseCid
    ensures IsSlotFor(cfg, map[agent := t], [1], Slot(cfg, [1], 0))
  {
    AloneCid(agent, t);
  }

  lemma NoneHeld(cfg: Config, n: nat)
    ensures NoFillers(map[]) && Held(cfg, map[], n) == 0 && forall i: nat :: !Taken(cfg, map[], i)
  {
    NothingHeld(cfg, n);
    var none: Live := map[];
    assert Cids(none) == {};
  }

  lemma AloneCid(agent: Str, t: Tenant)
    ensures Cids(map[agent := t]) == {t.guestCid}
  {
    var alone := map[agent := t];
    assert alone[agent].guestCid in Cids(alone);
  }

  lemma {:induction false} NothingHeld(cfg: Config, n: nat)
    ensures Held(cfg, map[], n) == 0
  {
    if n > 0 {
      NothingHeld(cfg, n - 1);
    }
  }

  lemma CollideAt(cfgs: set<Config>, cfg: Config, live: Live, a: Str, b: Str)
    requires Reached(cfgs, cfg, live)
    requires a in live && b in live && a != b && live[a].gatewayPort == live[b].gatewayPort
    ensures CanCollide(cfgs)
  {
    var first, ops, states: seq<Store> :| ReachedBy(cfgs, cfg, live, first, ops, states);
    assert Collides(cfgs, first, ops, states, a, b);
  }

  /** With one place under `hi`: its tenant comes first, and `lo` fills up around it. */
  lemma CollideHighFirst(lo: Config, hi: Config)
    requires ValidConfig(lo) && ValidConfig(hi) && lo.gatewayPortBase <= hi.gatewayPortBase
    requires PortShift(lo) != PortShift(hi) && Room(lo, hi) && hi.maxTenants == 1
    ensures CanCollide({lo, hi})
  {
    hide Reached;
    hide NoFillers;
    hide Filler;
    hide Held;
    hide IsSlotFor;
    hide CanCollide;
    hide Cids;
    var gap := PortGap(lo, hi);
    var high := Slot(hi, [1], 0);
    var start := map[[1] := high];
    FirstTenant(lo, hi);
    ReachReload({lo, hi}, hi, lo, start);
    NoFillerStart(high);
    HighStart(lo, hi);
    ReachFill({lo, hi}, lo, start, gap + 1);
    FillKeeps(lo, start, gap + 1, [1]);
    FillLast(lo, start, gap);
    hide Fill;
    hide Taken;
    FillerIsNotOne(gap);
    CollideAt({lo, hi}, lo, Fill(lo, start, gap + 1), Filler(gap), [1]);
  }

  /** The tenant of `hi` leaves the offset of the shared port free, and room to get there. */
  lemma HighStart(lo: Config, hi: Config)
    requires lo.gatewayPortBase <= hi.gatewayPortBase
    requires PortShift(lo) != PortShift(hi) && Room(lo, hi) && hi.maxTenants == 1
    ensures var gap, start := PortGap(lo, hi), map[[1] := Slot(hi, [1], 0)];
            && !Taken(lo, start, gap) && |start| + gap + 1 - Held(lo, start, gap + 1) <= lo.maxTenants
  {
    var gap, start := PortGap(lo, hi), map[[1] := Slot(hi, [1], 0)];
    AloneCid([1], Slot(hi, [1], 0));
    HeldAlone(lo, start, hi.baseCid, gap);
    HeldNext(lo, start, gap);
    hide Held;
    hide Cids;
  }

  lemma HeldNext(cfg: Config, start: Live, n: nat)
    requires !Taken(cfg, start, n)
    ensures Held(cfg, start, n + 1) == Held(cfg, start, n)
  {
  }

  lemma FirstTenant(lo: Config, hi: Config)
    requires ValidConfig(lo) && ValidConfig(hi) && hi.maxTenants >= 1
    ensures Reached({lo, hi}, hi, map[[1] := Slot(hi, [1], 0)])
  {
    hide Reached;
    var none: Live, high := map[], Slot(hi, [1], 0);
    ReachStart({lo, hi}, hi);
    assert Cids(none) == {};
    assert IsSlotFor(hi, none, [1], high);
    ReachAllocate({lo, hi}, hi, none, [1], high);
    assert none[[1] := high] == map[[1] := high];
  }

  lemma NoFillerStart(t: Tenant)
    ensures NoFillers(map[[1] := t])
  {
    forall i: nat ensures Filler(i) !in map[[1] := t] {
      FillerIsNotOne(i);
    }
  }

  /** A single tenant holds one offset below `n`, or none. */
  lemma {:induction false} HeldAlone(cfg: Config, start: Live, cid: nat, n: nat)
    requires Cids(start) == {cid}
    ensures Held(cfg, start, n) == if cfg.baseCid <= cid < cfg.baseCid + n then 1 else 0
  {
    if n > 0 {
      HeldAlone(cfg, start, cid, n - 1);
      hide Cids;
    }
  }

  // ---- A collision needs the room ----

  /** Where `hi` admits one tenant, a tenant `b` of `lo` living beside a tenant `a` of `hi` left it room: the
      offsets below `b` and `a` were all live when `b` came. */
  ghost predicate RoomBeside(lo: Config, hi: Config, a: Tenant, b: Tenant) {
    hi.maxTenants == 1 && b.guestCid >= lo.baseCid ==>
      b.guestCid - lo.baseCid + (if lo.baseCid <= a.guestCid < b.guestCid then 1 else 2) <= lo.maxTenants
  }

  ghost predicate AllRoom(lo: Config, hi: Config, live: Live) {
    forall x, y :: x in live && y in live && x != y && InPool(hi, x, live[x]) && InPool(lo, y, live[y]) ==>
      RoomBeside(lo, hi, live[x], live[y])
  }

  /** A tenant of one shift is not a tenant of the other. */
  lemma PoolsApart(lo: Config, hi: Config, a: Str, t: Tenant)
    requires PortShift(lo) != PortShift(hi) && InPool(lo, a, t)
    ensures !InPool(hi, a, t)
  {
  }

  /** What the least free slot says about the tenants already there. */
  lemma SlotLeavesRoom(cfg: Config, live: Live, agent: Str, t: Tenant, x: Str)
    requires IsSlotFor(cfg, live, agent, t) && |live| < cfg.maxTenants && x in live
    ensures t.guestCid - cfg.baseCid + (if cfg.baseCid <= live[x].guestCid < t.guestCid then 1 else 2) <= cfg.maxTenants
  {
    var offset, held := t.guestCid - cfg.baseCid, live[x].guestCid;
    CidsWithinCount(live);
    assert held in Cids(live);
    if cfg.baseCid <= held < t.guestCid {
      RunWithinCount(Cids(live), cfg.baseCid, offset);
    } else {
      var others := Cids(live) - {held};
      RunWithinCount(others, cfg.baseCid, offset);
    }
  }

  lemma AllocateRoom(lo: Config, hi: Config, cfg: Config, live: Live, agent: Str, t: Tenant)
    requires ValidConfig(lo) && ValidConfig(hi) && PortShift(lo) != PortShift(hi) && cfg in {lo, hi}
    requires Disjoint({lo, hi}, live) && AllRoom(lo, hi, live) && agent !in live
    requires LiveCount(live) < cfg.maxTenants && IsSlotFor(cfg, live, agent, t)
    ensures AllRoom(lo, hi, live[agent := t])
  {
    GrowKeepsDisjoint({lo, hi}, cfg, live, agent, t);
    CountFits({lo, hi}, live);
    var live' := live[agent := t];
    forall x, y | x in live' && y in live' && x != y && InPool(hi, x, live'[x]) && InPool(lo, y, live'[y])
      ensures RoomBeside(lo, hi, live'[x], live'[y])
    {
      if x != agent && y != agent {
        assert RoomBeside(lo, hi, live[x], live[y]);
      } else if y == agent {
        if cfg == hi {
          PoolsApart(lo, hi, agent, t);
        }
        SlotLeavesRoom(lo, live, agent, t, x);
      } else {
        if cfg == lo {
          PoolsApart(lo, hi, agent, t);
        }
        assert |live| >= 1;
      }
    }
  }

  lemma OpRoom(lo: Config, hi: Config, cfg: Config, s: Store, op: Op, s': Store)
    requires ValidConfig(lo) && ValidConfig(hi) && PortShift(lo) != PortShift(hi) && cfg in {lo, hi}
    requires StoreOk({lo, hi}, s) && AllRoom(lo, hi, s.live) && AllRoom(lo, hi, Loaded(s.file))
             && OpStep(cfg, s, op, s')
    ensures AllRoom(lo, hi, s'.live) && AllRoom(lo, hi, Loaded(s'.file))
  {
    hide AllRoom;
    hide Disjoint;
    hide IsSlotFor;
    match op
    case Allocate(agent, writes) =>
      var r :| AllocateStep(cfg, true, s, agent, writes, s', r);
      if r.Ok? {
        AllocateRoom(lo, hi, cfg, s.live, agent, r.value);
      }
    case Release(agent, writes) =>
      RoomShrinks(lo, hi, s.live, agent);
    case Reload(_) =>
  }

  lemma RoomShrinks(lo: Config, hi: Config, live: Live, agent: Str)
    requires AllRoom(lo, hi, live)
    ensures AllRoom(lo, hi, live - {agent})
  {
  }

  lemma {:induction false} RunRoom(lo: Config, hi: Config, first: Config, ops: seq<Op>, states: seq<Store>, k: nat)
    requires PortShift(lo) != PortShift(hi) && Uses({lo, hi}, first, ops) && IsRun(first, ops, states) && k < |states|
    ensures AllRoom(lo, hi, states[k].live) && AllRoom(lo, hi, Loaded(states[k].file))
  {
    hide AllRoom;
    hide StoreOk;
    if k > 0 {
      RunRoom(lo, hi, first, ops, states, k - 1);
      RunsStayDisjoint({lo, hi}, first, ops, states, k - 1);
      ConfigUsed({lo, hi}, first, ops, k - 1);
      OpRoom(lo, hi, ConfigAfter(first, ops[..k - 1]), states[k - 1], ops[k - 1], states[k]);
    } else {
      NoRoomNeeded(lo, hi);
    }
  }

  lemma NoRoomNeeded(lo: Config, hi: Config)
    ensures AllRoom(lo, hi, map[])
  {
  }

  /** Two tenants on one port are a tenant of each, with the room between them. */
  lemma SharedPortNeeds(lo: Config, hi: Config, live: Live, a: Str, b: Str)
    requires lo.gatewayPortBase <= hi.gatewayPortBase
    requires Disjoint({lo, hi}, live) && (PortShift(lo) != PortShift(hi) ==> AllRoom(lo, hi, live))
    requires a in live && b in live && a != b && live[a].gatewayPort == live[b].gatewayPort
    ensures PortShift(lo) != PortShift(hi) && Room(lo, hi)
  {
    assert InSomePool({lo, hi}, a, live[a]) && InSomePool({lo, hi}, b, live[b]);
    if InPool(hi, a, live[a]) && InPool(lo, b, live[b]) {
      assert PortShift(lo) != PortShift(hi) ==> RoomBeside(lo, hi, live[a], live[b]);
    } else {
      assert InPool(hi, b, live[b]) && InPool(lo, a, live[a]);
      assert PortShift(lo) != PortShift(hi) ==> RoomBeside(lo, hi, live[b], live[a]);
    }
  }

  /** For any two configurations, named so that `lo` has no greater port base: some run that restarts under
      one and the other gives two live tenants one port exactly when they differ in the shift between ports
      and CIDs, and have the room. Neither base alone matters, nor the ceiling. */
  lemma CollideIff(lo: Config, hi: Config)
    requires ValidConfig(lo) && ValidConfig(hi) && lo.gatewayPortBase <= hi.gatewayPortBase
    ensures CanCollide({lo, hi}) <==> PortShift(lo) != PortShift(hi) && Room(lo, hi)
  {
    hide Room;
    hide AllRoom;
    if PortShift(lo) != PortShift(hi) && Room(lo, hi) {
      RoomAdmits(lo, hi);
      if hi.maxTenants >= 2 {
        CollideLowFirst(lo, hi);
      } else {
        CollideHighFirst(lo, hi);
      }
    }
    if CanCollide({lo, hi}) {
      var first, ops, states: seq<Store>, a, b :| Collides({lo, hi}, first, ops, states, a, b);
      RunsStayDisjoint({lo, hi}, first, ops, states, |ops|);
      if PortShift(lo) != PortShift(hi) {
        RunRoom(lo, hi, first, ops, states, |ops|);
      }
      hide IsRun;
      hide Disjoint;
      SharedPortNeeds(lo, hi, states[|ops|].live, a, b);
    }
  }

  lemma RoomAdmits(lo: Config, hi: Config)
    requires lo.gatewayPortBase <= hi.gatewayPortBase && Room(lo, hi)
    ensures hi.maxTenants >= 1
  {
  }

  /** Two concrete changes that collide: a lower port base alone, a higher CID base alone; and one that does
      not, both bases raised together. */
  lemma SomeChanges()
    ensures CanCollide({Config(100, 999, 2), Config(100, 1000, 2)})
    ensures CanCollide({Config(101, 1000, 2), Config(100, 1000, 2)})
    ensures !CanCollide({Config(100, 1000, 2), Config(150, 1050, 9)})
  {
    hide CanCollide;
    CollideIff(Config(100, 999, 2), Config(100, 1000, 2));
    CollideIff(Config(101, 1000, 2), Config(100, 1000, 2));
    CollideIff(Config(100, 1000, 2), Config(150, 1050, 9));
  }
}
