/** First in, first out, random victims, and how an address is split: the replacement laws beside the recency stack of LRU. */
module CacheLaws {
  import opened Arith
  import opened CacheModel

  // ----- Addresses -----

  /** An address is block offset, set and tag, in this order from the bottom, and no other split fits. */
  lemma AddressFields(c: Config, addr: nat, tag: nat, k: nat, off: nat)
    requires ValidConfig(c) && k < c.nsets && off < c.blockBytes
    ensures addr == (tag * c.nsets + k) * c.blockBytes + off
       <==> tag == TagOf(c, addr) && k == SetOf(c, addr) && off == addr % c.blockBytes
  {
    hide Quot, Rem, Times;
    var block := tag * c.nsets + k;
    TimesIsProduct(block, c.blockBytes);
    QuotRemUnique(addr, c.blockBytes, block, off);
    QuotRemIsDivMod(addr, c.blockBytes);
    TimesIsProduct(tag, c.nsets);
    QuotRemUnique(block, c.nsets, tag, k);
    TimesIsProduct(TagOf(c, addr), c.nsets);
    QuotRemUnique(BlockOf(c, addr), c.nsets, TagOf(c, addr), SetOf(c, addr));
  }

  /** Whatever was just accessed is there, and the rest of its block with it. */
  lemma HitsAgain(c: Config, s: State, addr: nat, near: nat)
    requires ValidConfig(c) && ValidState(c, s) && addr / c.blockBytes == near / c.blockBytes
    ensures Hits(c, Access(c, s, addr), near)
  {
    QuotRemIsDivMod(addr, c.blockBytes);
    QuotRemIsDivMod(near, c.blockBytes);
    assert SetOf(c, near) == SetOf(c, addr) && TagOf(c, near) == TagOf(c, addr);
    var ways := Access(c, s, addr).sets[SetOf(c, addr)];
    hide SetOf, TagOf;
    assert exists w :: 0 <= w < c.assoc && ways[w].valid && ways[w].tag == TagOf(c, addr) by {
      var before := s.sets[SetOf(c, addr)];
      var w := FindTag(before, TagOf(c, addr), 0);
      var v := if w < c.assoc then w else Victim(c, before, s.draws);
      assert ways[v].valid && ways[v].tag == TagOf(c, addr);
    }
  }

  // ----- Hits -----

  /** Only LRU takes note of a hit. */
  lemma HitKeepsLines(c: Config, s: State, addr: nat)
    requires ValidConfig(c) && ValidState(c, s) && Hits(c, s, addr) && c.repl != LRU
    ensures Access(c, s, addr) == s.(accesses := s.accesses + 1)
  {
  }

  // ----- First in, first out -----

  /** For each tag that was brought into set k, the position (from 1) of the miss that last did so. */
  function LastFill(c: Config, h: seq<nat>, k: nat): (fill: map<nat, nat>)
    requires ValidConfig(c)
    ensures forall t :: t in fill ==> 1 <= fill[t] <= |h|
    ensures forall t, u :: t in fill && u in fill && t != u ==> fill[t] != fill[u]
  {
    if h == [] then map[]
    else
      var past, a := h[..|h| - 1], h[|h| - 1];
      var fill := LastFill(c, past, k);
      if SetOf(c, a) == k && !Hits(c, After(c, past), a) then fill[TagOf(c, a) := |h|] else fill
  }

  /** The same with the cache's clock instead of the position. */
  function FillStamps(c: Config, h: seq<nat>, k: nat): (fill: map<nat, nat>)
    requires ValidConfig(c)
    ensures forall t :: t in fill ==> 1 <= fill[t] <= After(c, h).clock
    ensures forall t, u :: t in fill && u in fill && t != u ==> fill[t] != fill[u]
  {
    if h == [] then map[]
    else
      var past, a := h[..|h| - 1], h[|h| - 1];
      var fill := FillStamps(c, past, k);
      if SetOf(c, a) == k && !Hits(c, After(c, past), a) then fill[TagOf(c, a) := After(c, past).clock + 1] else fill
  }

  ghost predicate SameOrder(f: map<nat, nat>, g: map<nat, nat>) {
    f.Keys == g.Keys && forall t, u :: t in f && u in f ==> (f[t] < f[u] <==> g[t] < g[u])
  }

  lemma {:induction false} StampsFollowPositions(c: Config, h: seq<nat>, k: nat)
    requires ValidConfig(c)
    ensures SameOrder(LastFill(c, h, k), FillStamps(c, h, k))
  {
    if h != [] {
      hide Hits, Access, SetOf, TagOf;
      StampsFollowPositions(c, h[..|h| - 1], k);
    }
  }

  lemma VictimIsOldest(c: Config, ways: seq<Line>, draws: nat)
    requires ValidConfig(c) && c.repl != RANDOM && |ways| == c.assoc
    ensures LruVictim(ways, Victim(c, ways, draws))
  {
  }

  lemma FillsSet(c: Config, s: State, addr: nat, fill: map<nat, nat>)
    requires ValidConfig(c) && c.repl == FIFO && ValidState(c, s) && !Hits(c, s, addr)
    requires HoldsMostRecent(c, s.sets[SetOf(c, addr)], fill)
    requires forall t :: t in fill ==> fill[t] <= s.clock
    requires forall t, u :: t in fill && u in fill && t != u ==> fill[t] != fill[u]
    ensures HoldsMostRecent(c, Access(c, s, addr).sets[SetOf(c, addr)], fill[TagOf(c, addr) := s.clock + 1])
  {
    hide HoldsMostRecent, LruVictim, Victim, FindTag, Resident, SetOf, TagOf;
    var ways, tag := s.sets[SetOf(c, addr)], TagOf(c, addr);
    ResidentHit(ways, tag);
    VictimIsOldest(c, ways, s.draws);
    ReplaceKeepsMostRecent(c, ways, fill, Victim(c, ways, s.draws), tag, s.clock + 1);
  }

  lemma OtherSetsStay(c: Config, s: State, addr: nat, k: nat)
    requires ValidConfig(c) && ValidState(c, s) && k < c.nsets
    ensures SetOf(c, addr) != k ==> Access(c, s, addr).sets[k] == s.sets[k]
  {
    hide Victim, FindTag;
  }

  lemma {:induction false} FifoInvariant(c: Config, h: seq<nat>, k: nat)
    requires ValidConfig(c) && c.repl == FIFO && k < c.nsets
    ensures HoldsMostRecent(c, After(c, h).sets[k], FillStamps(c, h, k))
  {
    if h == [] {
      assert Resident(Init(c).sets[k]) == {};
    } else {
      hide HoldsMostRecent, Access, Hits, SetOf, TagOf;
      var past, a := h[..|h| - 1], h[|h| - 1];
      FifoInvariant(c, past, k);
      OtherSetsStay(c, After(c, past), a, k);
      if Hits(c, After(c, past), a) {
        HitKeepsLines(c, After(c, past), a);
      } else if SetOf(c, a) == k {
        FillsSet(c, After(c, past), a, FillStamps(c, past, k));
      }
    }
  }

  lemma SameNewer(f: map<nat, nat>, g: map<nat, nat>, t: nat)
    requires SameOrder(f, g) && t in f
    ensures Newer(f, t) == Newer(g, t)
  {
  }

  lemma SameMostRecent(R: set<nat>, f: map<nat, nat>, g: map<nat, nat>, n: int)
    requires SameOrder(f, g) && MostRecent(R, g, n)
    ensures MostRecent(R, f, n)
  {
    assert |f| == |f.Keys| == |g.Keys| == |g|;
  }

  /** After every address history a FIFO set holds the `assoc` tags brought in last, so that an access hits exactly when its
      tag has been brought in and fewer than `assoc` others have since. */
  lemma FifoIsQueue(c: Config, h: seq<nat>, addr: nat)
    requires ValidConfig(c) && c.repl == FIFO
    ensures var k, tag := SetOf(c, addr), TagOf(c, addr); var fill := LastFill(c, h, k);
            && MostRecent(Resident(After(c, h).sets[k]), fill, c.assoc)
            && (Hits(c, After(c, h), addr) <==> tag in fill && |Newer(fill, tag)| < c.assoc)
  {
    var k, tag := SetOf(c, addr), TagOf(c, addr);
    var fill, stamps := LastFill(c, h, k), FillStamps(c, h, k);
    FifoInvariant(c, h, k);
    StampsFollowPositions(c, h, k);
    HitsByRecency(c, After(c, h).sets[k], stamps, tag);
    SameMostRecent(Resident(After(c, h).sets[k]), fill, stamps, c.assoc);
    if tag in fill {
      SameNewer(fill, stamps, tag);
    }
    hide MostRecent, Newer, LastFill, FillStamps, FindTag;
  }

  // ----- Misses -----

  /** While a way is empty nothing leaves, under every policy, and no random number is drawn. */
  lemma RoomFirst(c: Config, s: State, addr: nat)
    requires ValidConfig(c) && ValidState(c, s) && !Hits(c, s, addr)
    requires var ways := s.sets[SetOf(c, addr)]; Unique(ways) && exists w :: 0 <= w < c.assoc && !ways[w].valid
    ensures var k, s' := SetOf(c, addr), Access(c, s, addr);
            Resident(s'.sets[k]) == Resident(s.sets[k]) + {TagOf(c, addr)} && s'.draws == s.draws
  {
    var ways, tag := s.sets[SetOf(c, addr)], TagOf(c, addr);
    hide SetOf, TagOf, Resident;
    ResidentHit(ways, tag);
    var e := FirstEmpty(ways, 0);
    assert e < c.assoc;
    ResidentFill(ways, e, Line(true, tag, s.clock + 1));
    assert Resident(ways) - {} == Resident(ways);
  }

  /** In a full set the random policy takes the way the next random number names, and uses the number up. */
  lemma RandomEvicts(c: Config, s: State, addr: nat)
    requires ValidConfig(c) && ValidState(c, s) && !Hits(c, s, addr) && c.repl == RANDOM
    requires var ways := s.sets[SetOf(c, addr)]; Unique(ways) && forall w :: 0 <= w < c.assoc ==> ways[w].valid
    ensures 0 <= c.rand(s.draws) % c.assoc < c.assoc
    ensures var k, s' := SetOf(c, addr), Access(c, s, addr);
            && Resident(s'.sets[k]) == Resident(s.sets[k]) - {s.sets[k][c.rand(s.draws) % c.assoc].tag} + {TagOf(c, addr)}
            && s'.draws == s.draws + 1
  {
    var ways, tag := s.sets[SetOf(c, addr)], TagOf(c, addr);
    hide SetOf, TagOf, Resident;
    ResidentHit(ways, tag);
    QuotRemIsDivMod(c.rand(s.draws), c.assoc);
    ResidentFill(ways, Rem(c.rand(s.draws), c.assoc), Line(true, tag, s.clock + 1));
  }
}
