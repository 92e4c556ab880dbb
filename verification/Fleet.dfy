/** The fleet allocator: distinct guest CIDs and gateway ports for live tenants, across failing
    writes, crashes and reloads. */
module Fleet {
  import opened Bytes

  const U32_MAX: nat := 0xffff_ffff

  datatype Tenant = Tenant(agentId: Str, guestCid: nat, instanceId: Str, gatewayPort: nat)

  type Live = map<Str, Tenant>

  datatype Config = Config(baseCid: nat, gatewayPortBase: nat, maxTenants: nat)

  predicate ValidConfig(cfg: Config) {
    cfg.baseCid <= U32_MAX && cfg.gatewayPortBase <= U32_MAX && cfg.maxTenants <= U32_MAX
  }

  datatype AllocError =
    | Exhausted(maxTenants: nat, live: nat)
    | AlreadyAllocated(agentId: Str)
    | CidSpaceOverflow

  datatype LoadError = Unreadable

  /** "kirby-" in ASCII. */
  const INSTANCE_PREFIX: Str := [107, 105, 114, 98, 121, 45]

  function InstanceIdFor(agent: Str): Str {
    INSTANCE_PREFIX + agent
  }

  /** The live count is a `u32` cast of the map's size. */
  function LiveCount(live: Live): nat {
    |live| % (U32_MAX + 1)
  }

  function Cids(live: Live): set<nat> {
    set a | a in live :: live[a].guestCid
  }

  function Slot(cfg: Config, agent: Str, offset: nat): Tenant {
    Tenant(agent, cfg.baseCid + offset, InstanceIdFor(agent), cfg.gatewayPortBase + offset)
  }

  // ---- The search ----

  /** `offset` is the least offset whose CID is not occupied. */
  ghost predicate LeastFree(occupied: set<nat>, base: nat, offset: nat) {
    base + offset !in occupied && forall cid :: base <= cid < base + offset ==> cid in occupied
  }

  /** By pigeonhole, a run of occupied CIDs is no longer than the number of tenants. */
  lemma {:induction false} RunWithinCount(occupied: set<nat>, base: nat, n: nat)
    requires forall cid :: base <= cid < base + n ==> cid in occupied
    ensures n <= |occupied|
  {
    if n > 0 {
      RunWithinCount(occupied - {base + (n - 1)}, base, n - 1);
    }
  }

  lemma {:induction false} CidsWithinCount(live: Live)
    ensures |Cids(live)| <= |live|
  {
    if live != map[] {
      var a :| a in live;
      var rest := live - {a};
      CidsWithinCount(rest);
      assert live.Keys == rest.Keys + {a};
      assert Cids(live) == Cids(rest) + {live[a].guestCid};
    }
  }

  /** The least free offset exists and is unique. */
  lemma LeastFreeUnique(occupied: set<nat>, base: nat, o1: nat, o2: nat)
    requires LeastFree(occupied, base, o1) && LeastFree(occupied, base, o2)
    ensures o1 == o2
  {
  }

  /** Scan upward from offset 0. The scan stops at the least free offset, or reports that every CID
      from the base to the end of the `u32` range is occupied. */
  method FindFree(occupied: set<nat>, base: nat) returns (offset: Option<nat>)
    requires base <= U32_MAX
    ensures offset.Some? ==> LeastFree(occupied, base, offset.value) && base + offset.value <= U32_MAX
    ensures offset.None? <==> forall cid :: base <= cid <= U32_MAX ==> cid in occupied
  {
    var o := 0;
    while true
      invariant base + o <= U32_MAX + 1
      invariant forall cid :: base <= cid < base + o ==> cid in occupied
      decreases U32_MAX + 1 - o
    {
      if base + o > U32_MAX {
        return None;
      }
      if base + o !in occupied {
        return Some(o);
      }
      o := o + 1;
    }
  }

  // ---- The allocator ----

  /** The state file. A write replaces the whole file atomically, or fails and leaves it. */
  class Disk {
    var file: Option<Live>

    constructor ()
      ensures file == None
    {
      file := None;
    }

    method Replace(live: Live, succeeds: bool) returns (ok: bool)
      modifies this
      ensures ok == succeeds
      ensures file == if succeeds then Some(live) else old(file)
    {
      if succeeds {
        file := Some(live);
      }
      return succeeds;
    }
  }

  /** What an accepted allocation of `agent` is: the slot at the least free offset. */
  ghost predicate IsSlotFor(cfg: Config, live: Live, agent: Str, t: Tenant) {
    && t.guestCid >= cfg.baseCid
    && var offset := t.guestCid - cfg.baseCid;
    && LeastFree(Cids(live), cfg.baseCid, offset)
    && t == Slot(cfg, agent, offset)
    && t.guestCid <= U32_MAX && t.gatewayPort <= U32_MAX
  }

  lemma SlotIsLeast(cfg: Config, live: Live, agent: Str, offset: nat)
    requires LeastFree(Cids(live), cfg.baseCid, offset)
    ensures forall t :: IsSlotFor(cfg, live, agent, t) ==> t == Slot(cfg, agent, offset)
  {
    forall t | IsSlotFor(cfg, live, agent, t) ensures t == Slot(cfg, agent, offset) {
      LeastFreeUnique(Cids(live), cfg.baseCid, offset, t.guestCid - cfg.baseCid);
    }
  }

  /** The map in memory and the state file. */
  datatype Store = Store(live: Live, file: Option<Live>)

  /** Every outcome of an allocation, with the whole state after it. `durable` says whether there is
      a state file and `writes` whether a write to it succeeds. A rejection of any kind, a failed
      write included, leaves both the map and the file as they were. */
  ghost predicate AllocateStep(cfg: Config, durable: bool, s: Store, agent: Str, writes: bool, s': Store,
        r: Result<Tenant, AllocError>) {
    match r
    case Ok(t) =>
      && agent !in s.live && LiveCount(s.live) < cfg.maxTenants && (durable ==> writes)
      && IsSlotFor(cfg, s.live, agent, t)
      && s' == Store(s.live[agent := t], if durable then Some(s.live[agent := t]) else s.file)
    case Err(AlreadyAllocated(a)) => s' == s && a == agent && agent in s.live
    case Err(CidSpaceOverflow) =>
      && s' == s && agent !in s.live && LiveCount(s.live) < cfg.maxTenants
      && (forall t :: !IsSlotFor(cfg, s.live, agent, t))
    case Err(Exhausted(m, n)) =>
      && s' == s && agent !in s.live && m == cfg.maxTenants && n == LiveCount(s.live)
      && (n >= m || (durable && !writes && exists t :: IsSlotFor(cfg, s.live, agent, t)))
  }

  /** A release: the tenant leaves the map whatever happens to the write. */
  ghost predicate ReleaseStep(durable: bool, s: Store, agent: Str, writes: bool, s': Store, freed: Option<Tenant>) {
    && freed == (if agent in s.live then Some(s.live[agent]) else None)
    && s' == Store(s.live - {agent}, if durable && writes && freed.Some? then Some(s.live - {agent}) else s.file)
  }

  function Loaded(file: Option<Live>): Live {
    if file.None? then map[] else file.value
  }

  class Allocator {
    const cfg: Config
    const disk: Disk?
    var live: Live

    ghost function View(): Store
      reads this, disk
    {
      Store(live, if disk == null then None else disk.file)
    }

    /** An allocator over a given live set; in memory only when `disk` is null. */
    constructor (cfg: Config, disk: Disk?, live: Live)
      ensures this.cfg == cfg && this.disk == disk && this.live == live
    {
      this.cfg, this.disk, this.live := cfg, disk, live;
    }

    /** The stored set, or the empty one when there is no file. A file that is there but cannot be read or
        parsed, as `parses` says, is an error: better to refuse than to forget the live tenants. */
    static method LoadOrNew(cfg: Config, disk: Disk, parses: bool) returns (r: Result<Allocator, LoadError>)
      ensures r == Err(Unreadable) <==> disk.file.Some? && !parses
      ensures r.Ok? ==> fresh(r.value) && r.value.cfg == cfg && r.value.disk == disk
      ensures r.Ok? ==> r.value.live == Loaded(disk.file) && r.value.View() == Store(Loaded(disk.file), disk.file)
    {
      var stored: Live := map[];
      if disk.file.Some? {
        if !parses {
          return Err(Unreadable);
        }
        stored := disk.file.value;
      }
      var allocator := new Allocator(cfg, disk, stored);
      return Ok(allocator);
    }

    method Persist(writes: bool) returns (ok: bool)
      modifies disk
      ensures ok == (disk == null || writes)
      ensures disk != null ==> disk.file == if writes then Some(live) else old(disk.file)
    {
      if disk == null {
        return true;
      }
      ok := disk.Replace(live, writes);
    }

    method Allocate(agent: Str, writes: bool) returns (r: Result<Tenant, AllocError>)
      requires ValidConfig(cfg)
      modifies this, disk
      ensures AllocateStep(cfg, disk != null, old(View()), agent, writes, View(), r)
    {
      if agent in live {
        return Err(AlreadyAllocated(agent));
      }
      if LiveCount(live) >= cfg.maxTenants {
        return Err(Exhausted(cfg.maxTenants, LiveCount(live)));
      }
      var found := FindFree(Cids(live), cfg.baseCid);
      if found.None? {
        return Err(CidSpaceOverflow);
      }
      var offset := found.value;
      if cfg.gatewayPortBase + offset > U32_MAX {
        SlotIsLeast(cfg, live, agent, offset);
        return Err(CidSpaceOverflow);
      }
      var allocation := Slot(cfg, agent, offset);
      ghost var before := live;
      assert IsSlotFor(cfg, before, agent, allocation);
      live := live[agent := allocation];
      var ok := Persist(writes);
      if !ok {
        live := live - {agent};
        assert live == before;
        return Err(Exhausted(cfg.maxTenants, LiveCount(live)));
      }
      return Ok(allocation);
    }

    method Release(agent: Str, writes: bool) returns (freed: Option<Tenant>)
      modifies this, disk
      ensures ReleaseStep(disk != null, old(View()), agent, writes, View(), freed)
    {
      if agent !in live {
        assert live - {agent} == live;
        return None;
      }
      freed := Some(live[agent]);
      live := live - {agent};
      var ok := Persist(writes);
    }
  }

  // ---- One allocation ----

  /** A least free offset always exists. */
  lemma {:induction false} LeastFreeExists(occupied: set<nat>, base: nat, n: nat) returns (offset: nat)
    requires forall cid :: base <= cid < base + n ==> cid in occupied
    ensures LeastFree(occupied, base, offset)
    decreases |occupied| - n
  {
    RunWithinCount(occupied, base, n);
    if base + n in occupied {
      RunWithinCount(occupied, base, n + 1);
      offset := LeastFreeExists(occupied, base, n + 1);
    } else {
      offset := n;
    }
  }

  /** When fewer than `maxTenants` are live, there is a least free offset, at most the live count, and an
      allocation is refused for want of address space exactly when it overflows a CID or a port. */
  lemma OverflowIff(cfg: Config, s: Store, agent: Str, writes: bool, s': Store, r: Result<Tenant, AllocError>)
    returns (offset: nat)
    requires AllocateStep(cfg, true, s, agent, writes, s', r)
    requires agent !in s.live && LiveCount(s.live) < cfg.maxTenants
    ensures LeastFree(Cids(s.live), cfg.baseCid, offset) && offset <= |s.live|
    ensures r == Err(CidSpaceOverflow) <==> cfg.baseCid + offset > U32_MAX || cfg.gatewayPortBase + offset > U32_MAX
    ensures r.Ok? ==> r.value == Slot(cfg, agent, offset)
  {
    offset := LeastFreeExists(Cids(s.live), cfg.baseCid, 0);
    RunWithinCount(Cids(s.live), cfg.baseCid, offset);
    CidsWithinCount(s.live);
    if cfg.baseCid + offset <= U32_MAX && cfg.gatewayPortBase + offset <= U32_MAX {
      assert IsSlotFor(cfg, s.live, agent, Slot(cfg, agent, offset));
    }
    SlotIsLeast(cfg, s.live, agent, offset);
  }

  /** Some live tenant holds `cid`. */
  ghost predicate IsHeld(live: Live, cid: nat) {
    exists a :: a in live && live[a].guestCid == cid
  }

  /** What an allocation does, in every case: it succeeds exactly when the agent holds no slot, the count is below the
      ceiling, the least CID from the base that nobody holds and the port at its offset are 32-bit numbers, and the
      write, if there is a file, goes through. Then it grants just that slot, in memory and in the file; otherwise
      nothing changes, and the error says which of these failed, the ceiling also standing for a failed write. */
  lemma AllocatesIff(cfg: Config, durable: bool, s: Store, agent: Str, writes: bool, s': Store,
        r: Result<Tenant, AllocError>)
    returns (offset: nat)
    requires AllocateStep(cfg, durable, s, agent, writes, s', r)
    ensures forall cid :: cfg.baseCid <= cid < cfg.baseCid + offset ==> IsHeld(s.live, cid)
    ensures !IsHeld(s.live, cfg.baseCid + offset)
    ensures r.Ok? <==>
              && agent !in s.live && |s.live| % 0x1_0000_0000 < cfg.maxTenants && (durable ==> writes)
              && cfg.baseCid + offset < 0x1_0000_0000 && cfg.gatewayPortBase + offset < 0x1_0000_0000
    ensures r.Ok? ==>
              && r.value == Tenant(agent, cfg.baseCid + offset, InstanceIdFor(agent), cfg.gatewayPortBase + offset)
              && s'.live == s.live[agent := r.value] && s'.file == if durable then Some(s'.live) else s.file
    ensures r.Err? ==> s' == s
    ensures r == Err(AlreadyAllocated(agent)) <==> agent in s.live
    ensures r == Err(CidSpaceOverflow) <==>
              && agent !in s.live && |s.live| % 0x1_0000_0000 < cfg.maxTenants
              && (cfg.baseCid + offset >= 0x1_0000_0000 || cfg.gatewayPortBase + offset >= 0x1_0000_0000)
    ensures r.Ok? || agent in s.live || r.error == CidSpaceOverflow
            || r.error == Exhausted(cfg.maxTenants, |s.live| % 0x1_0000_0000)
  {
    offset := LeastFreeExists(Cids(s.live), cfg.baseCid, 0);
    if cfg.baseCid + offset <= U32_MAX && cfg.gatewayPortBase + offset <= U32_MAX {
      assert IsSlotFor(cfg, s.live, agent, Slot(cfg, agent, offset));
    }
    SlotIsLeast(cfg, s.live, agent, offset);
    assert forall cid :: IsHeld(s.live, cid) <==> cid in Cids(s.live);
  }

  // ---- Runs with crashes ----

  /** A reload is a restart of the supervisor, under whatever configuration it then reads. A restart that
      cannot read the file has no allocator and changes nothing. */
  datatype Op =
    | Allocate(agent: Str, writes: bool)
    | Release(agent: Str, writes: bool)
    | Reload(cfg: Config)

  /** One operation of a persistent allocator. A reload forgets the map and reads the file. */
  ghost predicate OpStep(cfg: Config, s: Store, op: Op, s': Store) {
    match op
    case Allocate(agent, writes) => exists r :: AllocateStep(cfg, true, s, agent, writes, s', r)
    case Release(agent, writes) => exists freed :: ReleaseStep(true, s, agent, writes, s', freed)
    case Reload(_) => s' == s.(live := Loaded(s.file))
  }

  /** The configuration in force after `ops`. */
  function ConfigAfter(cfg: Config, ops: seq<Op>): Config {
    if ops == [] then cfg
    else
      var last := ops[|ops| - 1];
      if last.Reload? then last.cfg else ConfigAfter(cfg, ops[..|ops| - 1])
  }

  /** `states` is a run of `ops` from an empty host under `cfg`, one step each under the configuration then
      in force. */
  ghost predicate IsRun(cfg: Config, ops: seq<Op>, states: seq<Store>) {
    && |states| == |ops| + 1
    && states[0] == Store(map[], None)
    && forall i :: 0 <= i < |ops| ==> OpStep(ConfigAfter(cfg, ops[..i]), states[i], ops[i], states[i + 1])
  }

  /** Every configuration of the run is one of `cfgs`, and those are valid. */
  ghost predicate Uses(cfgs: set<Config>, cfg: Config, ops: seq<Op>) {
    && cfg in cfgs && (forall op :: op in ops && op.Reload? ==> op.cfg in cfgs)
    && (forall c :: c in cfgs ==> ValidConfig(c))
  }

  /** `t` is the slot of `a` at an offset below the ceiling, within the `u32` range. */
  predicate InPool(cfg: Config, a: Str, t: Tenant) {
    && cfg.baseCid <= t.guestCid < cfg.baseCid + cfg.maxTenants
    && t == Slot(cfg, a, t.guestCid - cfg.baseCid)
    && t.guestCid <= U32_MAX && t.gatewayPort <= U32_MAX
  }

  ghost predicate InSomePool(cfgs: set<Config>, a: Str, t: Tenant) {
    exists c :: c in cfgs && InPool(c, a, t)
  }

  ghost predicate CidsDistinct(live: Live) {
    forall a, b :: a in live && b in live && a != b ==> live[a].guestCid != live[b].guestCid
  }

  ghost predicate BelowCeiling(cfgs: set<Config>, live: Live) {
    exists c :: c in cfgs && |live| <= c.maxTenants
  }

  /** Every tenant holds a slot of one of the pools, no two the same CID. */
  ghost predicate Disjoint(cfgs: set<Config>, live: Live) {
    BelowCeiling(cfgs, live) && (forall a :: a in live ==> InSomePool(cfgs, a, live[a])) && CidsDistinct(live)
  }

  /** The map in memory is always part of the durable one. */
  ghost predicate StoreOk(cfgs: set<Config>, s: Store) {
    && Disjoint(cfgs, s.live) && Disjoint(cfgs, Loaded(s.file))
    && forall a :: a in s.live ==> a in Loaded(s.file) && Loaded(s.file)[a] == s.live[a]
  }

  lemma GrowKeepsDisjoint(cfgs: set<Config>, cfg: Config, live: Live, agent: Str, t: Tenant)
    requires cfg in cfgs && (forall c :: c in cfgs ==> ValidConfig(c)) && Disjoint(cfgs, live) && agent !in live
    requires LiveCount(live) < cfg.maxTenants && IsSlotFor(cfg, live, agent, t)
    ensures Disjoint(cfgs, live[agent := t]) && InPool(cfg, agent, t)
  {
    CountFits(cfgs, live);
    SlotInPool(cfg, live, agent, t);
    assert t.guestCid !in Cids(live);
    FreshCid(live, t.guestCid);
    hide InPool;
    hide IsSlotFor;
    hide Cids;
    DistinctGrows(live, agent, t);
    assert |live[agent := t]| <= cfg.maxTenants;
    assert InSomePool(cfgs, agent, t);
    hide InSomePool;
  }

  lemma CidsDiffer(live: Live, a: Str, b: Str)
    requires CidsDistinct(live) && a in live && b in live && a != b
    ensures live[a].guestCid != live[b].guestCid
  {
  }

  lemma DistinctGrows(live: Live, agent: Str, t: Tenant)
    requires CidsDistinct(live) && forall a :: a in live ==> live[a].guestCid != t.guestCid
    ensures CidsDistinct(live[agent := t])
  {
  }

  lemma SlotInPool(cfg: Config, live: Live, agent: Str, t: Tenant)
    requires |live| < cfg.maxTenants && IsSlotFor(cfg, live, agent, t)
    ensures InPool(cfg, agent, t)
  {
    RunWithinCount(Cids(live), cfg.baseCid, t.guestCid - cfg.baseCid);
    CidsWithinCount(live);
  }

  lemma CountFits(cfgs: set<Config>, live: Live)
    requires (forall c :: c in cfgs ==> ValidConfig(c)) && BelowCeiling(cfgs, live)
    ensures LiveCount(live) == |live|
  {
  }

  lemma FreshCid(live: Live, cid: nat)
    requires cid !in Cids(live)
    ensures forall a :: a in live ==> live[a].guestCid != cid
  {
    forall a | a in live ensures live[a].guestCid != cid {
      assert live[a].guestCid in Cids(live);
    }
  }

  lemma ShrinkKeepsDisjoint(cfgs: set<Config>, live: Live, agent: Str)
    requires Disjoint(cfgs, live)
    ensures Disjoint(cfgs, live - {agent})
  {
    hide InSomePool;
    var rest := live - {agent};
    if agent in live {
      assert live.Keys == rest.Keys + {agent};
    } else {
      assert rest == live;
    }
    DistinctShrinks(live, agent);
    var c :| c in cfgs && |live| <= c.maxTenants;
    assert |rest| <= c.maxTenants;
  }

  lemma DistinctShrinks(live: Live, agent: Str)
    requires CidsDistinct(live)
    ensures CidsDistinct(live - {agent})
  {
  }

  lemma OpKeeps(cfgs: set<Config>, cfg: Config, s: Store, op: Op, s': Store)
    requires cfg in cfgs && (forall c :: c in cfgs ==> ValidConfig(c)) && StoreOk(cfgs, s) && OpStep(cfg, s, op, s')
    ensures StoreOk(cfgs, s')
  {
    hide Disjoint;
    match op
    case Allocate(agent, writes) =>
      var r :| AllocateStep(cfg, true, s, agent, writes, s', r);
      if r.Ok? {
        GrowKeepsDisjoint(cfgs, cfg, s.live, agent, r.value);
      }
    case Release(agent, writes) =>
      ShrinkKeepsDisjoint(cfgs, s.live, agent);
    case Reload(_) =>
  }

  lemma {:induction false} ConfigUsed(cfgs: set<Config>, cfg: Config, ops: seq<Op>, n: nat)
    requires Uses(cfgs, cfg, ops) && n <= |ops|
    ensures ConfigAfter(cfg, ops[..n]) in cfgs
  {
    if n > 0 {
      assert ops[..n][..n - 1] == ops[..n - 1] && ops[n - 1] in ops;
      ConfigUsed(cfgs, cfg, ops, n - 1);
    }
  }

  /** In every run of allocations, releases and reloads, with every write succeeding or failing and any
      configuration at each reload: live CIDs are pairwise distinct, every tenant holds a slot of one of
      those pools, and memory never holds what the file does not. */
  lemma {:induction false} RunsStayDisjoint(cfgs: set<Config>, cfg: Config, ops: seq<Op>, states: seq<Store>, k: nat)
    requires Uses(cfgs, cfg, ops) && IsRun(cfg, ops, states) && k < |states|
    ensures StoreOk(cfgs, states[k])
  {
    if k > 0 {
      RunsStayDisjoint(cfgs, cfg, ops, states, k - 1);
      ConfigUsed(cfgs, cfg, ops, k - 1);
      OpKeeps(cfgs, ConfigAfter(cfg, ops[..k - 1]), states[k - 1], ops[k - 1], states[k]);
    } else {
      EmptyIsDisjoint(cfgs, cfg);
    }
  }

  lemma EmptyIsDisjoint(cfgs: set<Config>, cfg: Config)
    requires cfg in cfgs
    ensures Disjoint(cfgs, map[])
  {
    var none: Live := map[];
    assert |none| <= cfg.maxTenants;
  }

  // ---- Ports ----

  /** How far a configuration's ports lie from its CIDs. */
  function PortShift(cfg: Config): int {
    cfg.gatewayPortBase - cfg.baseCid
  }

  ghost predicate OneShift(cfgs: set<Config>) {
    forall c, c' :: c in cfgs && c' in cfgs ==> PortShift(c) == PortShift(c')
  }

  /** Under one shift, distinct CIDs are distinct ports. */
  lemma PortsDistinct(cfgs: set<Config>, live: Live, a: Str, b: Str)
    requires Disjoint(cfgs, live) && OneShift(cfgs) && a in live && b in live && a != b
    ensures live[a].guestCid != live[b].guestCid && live[a].gatewayPort != live[b].gatewayPort
  {
    assert InSomePool(cfgs, a, live[a]) && InSomePool(cfgs, b, live[b]);
    var c :| c in cfgs && InPool(c, a, live[a]);
    var c' :| c' in cfgs && InPool(c', b, live[b]);
    assert PortShift(c) == PortShift(c');
  }

  /** In every run whose configurations keep the port shift, no two live tenants share a CID or a port; a
      CID lies in the pool of one of the configurations, so in the one pool when there is only one. */
  lemma NoTwoTenantsShare(cfgs: set<Config>, cfg: Config, ops: seq<Op>, states: seq<Store>, k: nat, a: Str, b: Str)
    requires Uses(cfgs, cfg, ops) && OneShift(cfgs) && IsRun(cfg, ops, states) && k < |states|
    requires a in states[k].live && b in states[k].live && a != b
    ensures var live := states[k].live;
            && live[a].guestCid != live[b].guestCid && live[a].gatewayPort != live[b].gatewayPort
            && live[a].instanceId != live[b].instanceId
            && live[a].agentId == a && live[a].instanceId == [0x6b, 0x69, 0x72, 0x62, 0x79, 0x2d] + a
            && exists c :: c in cfgs && c.baseCid <= live[a].guestCid < c.baseCid + c.maxTenants
  {
    RunsStayDisjoint(cfgs, cfg, ops, states, k);
    hide IsRun;
    PortsDistinct(cfgs, states[k].live, a, b);
    assert InSomePool(cfgs, a, states[k].live[a]) && InSomePool(cfgs, b, states[k].live[b]);
    var prefix := [0x6b, 0x69, 0x72, 0x62, 0x79, 0x2d];
    assert (prefix + a)[6..] == a && (prefix + b)[6..] == b;
  }

  /** A crash at any point of a run never lets a CID that a live tenant held be handed to another agent, nor
      a port if the configuration after the restart keeps the shift: the next allocation avoids them all. */
  lemma ReloadNeverReHands(cfgs: set<Config>, cfg: Config, ops: seq<Op>, states: seq<Store>, after: Config, agent: Str,
        writes: bool, s': Store, t: Tenant, holder: Str)
    requires Uses(cfgs, cfg, ops) && after in cfgs && IsRun(cfg, ops, states)
    requires var s := states[|ops|];
             && holder in s.live
             && AllocateStep(after, true, s.(live := Loaded(s.file)), agent, writes, s', Ok(t))
    ensures holder != agent && holder in s'.live && s'.live[holder] == states[|ops|].live[holder]
    ensures t.guestCid != states[|ops|].live[holder].guestCid
    ensures OneShift(cfgs) ==> t.gatewayPort != states[|ops|].live[holder].gatewayPort
  {
    var s := states[|ops|];
    RunsStayDisjoint(cfgs, cfg, ops, states, |ops|);
    hide IsRun;
    hide InSomePool;
    hide InPool;
    hide BelowCeiling;
    hide IsSlotFor;
    GrowKeepsDisjoint(cfgs, after, Loaded(s.file), agent, t);
    assert CidsDistinct(s'.live);
    hide CidsDistinct;
    assert s'.live[agent] == t && s'.live[holder] == s.live[holder];
    CidsDiffer(s'.live, holder, agent);
    if OneShift(cfgs) {
      PortsDistinct(cfgs, s'.live, holder, agent);
    }
  }
}
