/** The cache as the pipeline uses it: flat arrays updated in place. */
module CacheUnit {
  import opened Arith
  import M = CacheModel

  /** Way w of set k lives at k * assoc + w, and nothing else does. */
  lemma FlatIndex(assoc: int, nsets: int, k: nat, w: nat)
    requires k < nsets && w < assoc
    ensures Times(k, assoc) + w < Times(nsets, assoc)
    ensures Quot(Times(k, assoc) + w, assoc) == k && Rem(Times(k, assoc) + w, assoc) == w
  {
    TimesMonotone(k + 1, nsets, assoc);
    assert Times(k + 1, assoc) == Times(k, assoc) + assoc;
    QuotRemUnique(Times(k, assoc) + w, assoc, k, w);
  }

  lemma SetBelow(assoc: int, nsets: nat, i: nat)
    requires 1 <= assoc && i < Times(nsets, assoc)
    ensures Quot(i, assoc) < nsets
  {
    QuotRemUnique(i, assoc, Quot(i, assoc), Rem(i, assoc));
    if nsets <= Quot(i, assoc) {
      TimesMonotone(nsets, Quot(i, assoc), assoc);
    }
  }

  class Cache {
    const cfg: M.Config
    const valid: array<bool>
    const tag: array<nat>
    const order: array<nat>
    var clock: nat
    var accesses: nat
    var misses: nat
    var draws: nat
    ghost var state: M.State

    ghost predicate Valid()
      reads this, valid, tag, order
    {
      && M.ValidConfig(cfg) && M.ValidState(cfg, state)
      && tag != order
      && valid.Length == tag.Length == order.Length == Times(cfg.nsets, cfg.assoc)
      && clock == state.clock && accesses == state.accesses && misses == state.misses && draws == state.draws
      && forall i :: 0 <= i < valid.Length ==> Holds(i)
    }

    ghost predicate Holds(i: int)
      requires M.ValidConfig(cfg) && M.ValidState(cfg, state)
      requires 0 <= i < valid.Length && valid.Length == tag.Length == order.Length
      reads this, valid, tag, order
    {
      var k := Quot(i, cfg.assoc);
      && 0 <= k < cfg.nsets
      && state.sets[k][Rem(i, cfg.assoc)] == M.Line(valid[i], tag[i], order[i])
    }

    constructor (cfg: M.Config)
      requires M.ValidConfig(cfg)
      ensures Valid() && fresh(valid) && fresh(tag) && fresh(order)
      ensures this.cfg == cfg && state == M.Init(cfg)
    {
      this.cfg := cfg;
      var lines := Times(cfg.nsets, cfg.assoc);
      valid := new bool[lines](_ => false);
      tag := new nat[lines](_ => 0);
      order := new nat[lines](_ => 0);
      clock, accesses, misses, draws := 0, 0, 0, 0;
      state := M.Init(cfg);
      new;
      forall i | 0 <= i < valid.Length ensures Holds(i) {
        SetBelow(cfg.assoc, cfg.nsets, i);
      }
    }

    /** The line of set k, way w. */
    lemma LineAt(k: nat, w: nat)
      requires Valid() && k < cfg.nsets && w < cfg.assoc
      ensures Times(k, cfg.assoc) + w < valid.Length
      ensures var i := Times(k, cfg.assoc) + w; state.sets[k][w] == M.Line(valid[i], tag[i], order[i])
    {
      FlatIndex(cfg.assoc, cfg.nsets, k, w);
      assert Holds(Times(k, cfg.assoc) + w);
    }

    /** The way to replace: an empty one first, else by policy. drew: a random number was used. */
    method PickVictim(k: nat) returns (v: nat, drew: bool)
      requires Valid() && k < cfg.nsets
      ensures v == M.Victim(cfg, state.sets[k], draws)
      ensures drew <==> M.FirstEmpty(state.sets[k], 0) == cfg.assoc && cfg.repl == M.RANDOM
    {
      ghost var ways := state.sets[k];
      var base := Times(k, cfg.assoc);
      var w := 0;
      while w < cfg.assoc
        invariant 0 <= w <= cfg.assoc && M.FirstEmpty(ways, 0) == M.FirstEmpty(ways, w)
      {
        LineAt(k, w);
        if !valid[base + w] { return w, false; }
        w := w + 1;
      }
      if cfg.repl == M.RANDOM {
        return Rem(cfg.rand(draws), cfg.assoc), true;
      }
      LineAt(k, 0);
      v, drew := 0, false;
      var best := order[base];
      w := 1;
      while w < cfg.assoc
        invariant 1 <= w <= cfg.assoc && v == M.Oldest(ways, w) && best == ways[v].order
      {
        LineAt(k, w);
        if order[base + w] < best {
          best := order[base + w];
          v := w;
        }
        w := w + 1;
      }
    }

    /** Advances the clock and stamps way w of set k, which now holds tag t. */
    method Stamp(k: nat, w: nat, t: nat)
      requires Valid() && k < cfg.nsets && w < cfg.assoc
      modifies this`clock, this`state, valid, tag, order
      ensures Valid()
      ensures var s := old(state);
              state == s.(clock := s.clock + 1, sets := s.sets[k := s.sets[k][w := M.Line(true, t, s.clock + 1)]])
    {
      LineAt(k, w);
      FlatIndex(cfg.assoc, cfg.nsets, k, w);
      assert forall i :: 0 <= i < valid.Length ==> Holds(i);
      clock := clock + 1;
      var i := Times(k, cfg.assoc) + w;
      valid[i], tag[i], order[i] := true, t, clock;
      state := state.(clock := clock, sets := state.sets[k := state.sets[k][w := M.Line(true, t, clock)]]);
      forall j | 0 <= j < valid.Length ensures Holds(j) {
        assert old(Holds(j));
        if Quot(j, cfg.assoc) == k && Rem(j, cfg.assoc) == w {
          QuotRemUnique(j, cfg.assoc, k, w);
        }
      }
    }

    /** The way of set k that holds tag t, or assoc. */
    method FindWay(k: nat, t: nat) returns (w: nat)
      requires Valid() && k < cfg.nsets
      ensures w == M.FindTag(state.sets[k], t, 0)
    {
      ghost var ways := state.sets[k];
      w := 0;
      while w < cfg.assoc
        invariant 0 <= w <= cfg.assoc && M.FindTag(ways, t, 0) == M.FindTag(ways, t, w)
      {
        LineAt(k, w);
        if valid[Times(k, cfg.assoc) + w] && tag[Times(k, cfg.assoc) + w] == t { return; }
        w := w + 1;
      }
    }

    /** Looks an address up; on a miss, fills the victim's way. */
    method Access(addr: nat) returns (hit: bool)
      requires Valid()
      modifies this, valid, tag, order
      ensures Valid()
      ensures state == M.Access(cfg, old(state), addr)
      ensures hit == M.Hits(cfg, old(state), addr)
    {
      Count(false, false);
      var block := Quot(addr, cfg.blockBytes);
      var k := Rem(block, cfg.nsets);
      var t := Quot(block, cfg.nsets);
      var w := FindWay(k, t);
      if w < cfg.assoc {
        if cfg.repl == M.LRU { Stamp(k, w, t); }
        return true;
      }
      var v, drew := PickVictim(k);
      Count(true, drew);
      Stamp(k, v, t);
      return false;
    }

    /** Bumps the access counter, or on a miss the miss counter and the random generator's position. */
    method Count(miss: bool, drew: bool)
      requires Valid()
      modifies this`accesses, this`misses, this`draws, this`state
      ensures Valid()
      ensures var s := old(state);
              state == if miss then s.(misses := s.misses + 1, draws := s.draws + if drew then 1 else 0)
                       else s.(accesses := s.accesses + 1)
    {
      assert forall i :: 0 <= i < valid.Length ==> Holds(i);
      if miss {
        misses := misses + 1;
        if drew { draws := draws + 1; }
      } else {
        accesses := accesses + 1;
      }
      state := if miss then state.(misses := misses, draws := draws) else state.(accesses := accesses);
      forall i | 0 <= i < valid.Length ensures Holds(i) {
        assert old(Holds(i));
      }
    }
  }
}
