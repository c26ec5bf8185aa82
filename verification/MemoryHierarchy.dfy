/** Two first-level caches in front of an optional unified second level, as the pipeline probes them. */
module MemoryHierarchy {
  import opened Arith
  import opened InstStream
  import opened Pipeline
  import CM = CacheModel
  import CacheUnit

  datatype Hierarchy = Hierarchy(icache: CM.Config, dcache: CM.Config, l2: CM.Config)

  predicate ValidHierarchy(c: Hierarchy) {
    CM.ValidConfig(c.icache) && CM.ValidConfig(c.dcache) && CM.ValidConfig(c.l2)
  }

  datatype Caches = Caches(ic: CM.State, dc: CM.State, l2: CM.State)

  predicate ValidCaches(c: Hierarchy, s: Caches) {
    CM.ValidState(c.icache, s.ic) && CM.ValidState(c.dcache, s.dc) && CM.ValidState(c.l2, s.l2)
  }

  function ColdCaches(c: Hierarchy): (s: Caches)
    requires ValidHierarchy(c)
    ensures ValidCaches(c, s)
  {
    Caches(CM.Init(c.icache), CM.Init(c.dcache), CM.Init(c.l2))
  }

  /** The most an access can cost beyond its cycle: behind a second level the L1 penalty is never charged. */
  function WorstCost(c: Hierarchy, l1: CM.Config): nat {
    if !l1.enabled then 0 else if c.l2.enabled then Max(c.l2.hitLatency, c.l2.missPenalty) else l1.missPenalty
  }

  datatype Probed = Probed(cost: int, l1: CM.State, l2: CM.State)

  /** One L1 access: HIT, or what the miss costs; only a miss reaches the second level. */
  function Probe(c: Hierarchy, l1: CM.Config, s: CM.State, l2: CM.State, addr: nat): (r: Probed)
    requires ValidHierarchy(c) && CM.ValidConfig(l1) && CM.ValidState(l1, s) && CM.ValidState(c.l2, l2)
    ensures CM.ValidState(l1, r.l1) && CM.ValidState(c.l2, r.l2)
    ensures HIT <= r.cost <= WorstCost(c, l1) && (!l1.enabled ==> r == Probed(HIT, s, l2))
    ensures r.cost == HIT <==> !l1.enabled || CM.Hits(l1, s, addr)
    ensures l1.enabled ==> r.l1.accesses == s.accesses + 1 && r.l1.misses == s.misses + if r.cost == HIT then 0 else 1
    ensures c.l2.enabled ==> r.l2.accesses - l2.accesses == r.l1.misses - s.misses
    ensures c.l2.enabled && r.l2.misses > l2.misses ==> r.cost == c.l2.missPenalty
  {
    if !l1.enabled then Probed(HIT, s, l2)
    else if CM.Hits(l1, s, addr) then Probed(HIT, CM.Access(l1, s, addr), l2)
    else if !c.l2.enabled then Probed(l1.missPenalty, CM.Access(l1, s, addr), l2)
    else Probed(if CM.Hits(c.l2, l2, addr) then c.l2.hitLatency else c.l2.missPenalty,
                CM.Access(l1, s, addr), CM.Access(c.l2, l2, addr))
  }

  datatype Charged = Charged(cost: int, caches: Caches)

  function DataAccess(c: Hierarchy, s: Caches, d: Inst): (r: Charged)
    requires ValidHierarchy(c) && ValidCaches(c, s)
    ensures ValidCaches(c, r.caches) && HIT <= r.cost <= WorstCost(c, c.dcache)
  {
    if !d.accessesMem then Charged(HIT, s)
    else var r := Probe(c, c.dcache, s.dc, s.l2, d.memAddr); Charged(r.cost, s.(dc := r.l1, l2 := r.l2))
  }

  function InstAccess(c: Hierarchy, s: Caches, d: Inst): (r: Charged)
    requires ValidHierarchy(c) && ValidCaches(c, s)
    ensures ValidCaches(c, r.caches) && HIT <= r.cost <= WorstCost(c, c.icache)
  {
    var r := Probe(c, c.icache, s.ic, s.l2, d.pc); Charged(r.cost, s.(ic := r.l1, l2 := r.l2))
  }

  /** The most stall cycles a fetch can cause: a miss at least the one in which it is found. */
  function WorstFetch(c: Hierarchy): nat { if c.icache.enabled then Max(1, WorstCost(c, c.icache)) else 0 }

  /** The worst fetch, the worst data access and three cycles more fit what the safety net allows an instruction. */
  predicate NetCovers(c: Hierarchy) {
    3 + WorstFetch(c) + WorstCost(c, c.dcache) <= 20 + c.icache.missPenalty + c.dcache.missPenalty
  }

  // ----- In place -----

  class MemorySystem {
    const cfg: Hierarchy
    const ic: CacheUnit.Cache
    const dc: CacheUnit.Cache
    const l2: CacheUnit.Cache
    ghost const Repr: set<object>
    ghost var state: Caches

    /** Guards the invariant so that it unfolds only where Unlock is mentioned. */
    static ghost predicate Unlock(key: int) { true }

    ghost predicate Inv()
      requires this in Repr && Part(ic) <= Repr && Part(dc) <= Repr && Part(l2) <= Repr
      reads this, Repr
    {
      && Part(ic) !! Part(dc) !! Part(l2) && this !in Part(ic) + Part(dc) + Part(l2)
      && ic.Valid() && dc.Valid() && l2.Valid()
      && ic.cfg == cfg.icache && dc.cfg == cfg.dcache && l2.cfg == cfg.l2
      && state == Caches(ic.state, dc.state, l2.state)
    }

    static ghost function Part(c: CacheUnit.Cache): set<object> { {c, c.valid, c.tag, c.order} }

    ghost predicate Ready()
      reads this, Repr
    {
      && this in Repr && Part(ic) <= Repr && Part(dc) <= Repr && Part(l2) <= Repr
      && ValidHierarchy(cfg) && ValidCaches(cfg, state)
      && forall key {:trigger Unlock(key)} :: Unlock(key) ==> Inv()
    }

    constructor (cfg: Hierarchy, i: CacheUnit.Cache, d: CacheUnit.Cache, s: CacheUnit.Cache)
      requires ValidHierarchy(cfg) && i.Valid() && d.Valid() && s.Valid() && Part(i) !! Part(d) !! Part(s)
      requires i.cfg == cfg.icache && d.cfg == cfg.dcache && s.cfg == cfg.l2
      ensures Ready() && this.cfg == cfg && state == Caches(i.state, d.state, s.state)
      ensures Repr == {this} + Part(i) + Part(d) + Part(s)
    {
      this.cfg := cfg;
      ic, dc, l2 := i, d, s;
      Repr := {this} + Part(i) + Part(d) + Part(s);
      state := Caches(i.state, d.state, s.state);
    }

    method FetchAccess(d: Inst) returns (cost: int)
      requires Ready()
      modifies Repr
      ensures Ready() && cost == InstAccess(cfg, old(state), d).cost && state == InstAccess(cfg, old(state), d).caches
    {
      assert Unlock(0);
      cost := HIT;
      if cfg.icache.enabled {
        var hit := ic.Access(d.pc);
        if !hit {
          cost := cfg.icache.missPenalty;
          if cfg.l2.enabled {
            var hit2 := l2.Access(d.pc);
            cost := if hit2 then cfg.l2.hitLatency else cfg.l2.missPenalty;
          }
        }
      }
      state := Caches(ic.state, dc.state, l2.state);
    }

    method LoadStoreAccess(d: Inst) returns (cost: int)
      requires Ready()
      modifies Repr
      ensures Ready() && cost == DataAccess(cfg, old(state), d).cost && state == DataAccess(cfg, old(state), d).caches
    {
      assert Unlock(0);
      cost := HIT;
      if cfg.dcache.enabled && d.accessesMem {
        var hit := dc.Access(d.memAddr);
        if !hit {
          cost := cfg.dcache.missPenalty;
          if cfg.l2.enabled {
            var hit2 := l2.Access(d.memAddr);
            cost := if hit2 then cfg.l2.hitLatency else cfg.l2.missPenalty;
          }
        }
      }
      state := Caches(ic.state, dc.state, l2.state);
    }
  }
}
