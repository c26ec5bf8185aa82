/** Set-associative cache with LRU, FIFO or random replacement: behaviour as a function of the address history. */
module CacheModel {
  import opened Arith

  datatype Policy = LRU | FIFO | RANDOM

  /** `rand` stands for the successive values of the C library's generator; it is arbitrary. */
  datatype Config = Config(enabled: bool, blockBytes: int, assoc: int, nsets: int, repl: Policy,
                           hitLatency: nat, missPenalty: nat, rand: nat -> nat)

  predicate ValidConfig(c: Config) { 1 <= c.blockBytes && 1 <= c.assoc && 1 <= c.nsets }

  datatype Line = Line(valid: bool, tag: nat, order: nat)

  datatype State = State(sets: seq<seq<Line>>, clock: nat, accesses: nat, misses: nat, draws: nat)

  predicate ValidState(c: Config, s: State) {
    |s.sets| == c.nsets && forall k :: 0 <= k < c.nsets ==> |s.sets[k]| == c.assoc
  }

  function Init(c: Config): (s: State)
    requires ValidConfig(c)
    ensures ValidState(c, s)
  {
    State(seq(c.nsets, _ => seq(c.assoc, _ => Line(false, 0, 0))), 0, 0, 0, 0)
  }

  function BlockOf(c: Config, addr: nat): nat
    requires ValidConfig(c)
  {
    Quot(addr, c.blockBytes)
  }

  function SetOf(c: Config, addr: nat): (k: nat)
    requires ValidConfig(c)
    ensures k < c.nsets
  {
    Rem(BlockOf(c, addr), c.nsets)
  }

  function TagOf(c: Config, addr: nat): (t: nat)
    requires ValidConfig(c)
  {
    Quot(BlockOf(c, addr), c.nsets)
  }

  /** The first of the ways from w on that holds the tag, or |ways|. */
  function FindTag(ways: seq<Line>, tag: nat, w: nat): (r: nat)
    requires w <= |ways|
    ensures w <= r <= |ways|
    ensures r < |ways| ==> ways[r].valid && ways[r].tag == tag
    ensures forall v :: w <= v < r ==> !(ways[v].valid && ways[v].tag == tag)
    decreases |ways| - w
  {
    if w == |ways| || (ways[w].valid && ways[w].tag == tag) then w else FindTag(ways, tag, w + 1)
  }

  function FirstEmpty(ways: seq<Line>, w: nat): (r: nat)
    requires w <= |ways|
    ensures w <= r <= |ways|
    ensures r < |ways| ==> !ways[r].valid
    ensures forall v :: w <= v < r ==> ways[v].valid
    decreases |ways| - w
  {
    if w == |ways| || !ways[w].valid then w else FirstEmpty(ways, w + 1)
  }

  /** The first way of least order among the first n. */
  function Oldest(ways: seq<Line>, n: nat): (r: nat)
    requires 1 <= n <= |ways|
    ensures r < n
    ensures forall v :: 0 <= v < n ==> ways[r].order <= ways[v].order
    ensures forall v :: 0 <= v < r ==> ways[r].order < ways[v].order
  {
    if n == 1 then 0
    else var best := Oldest(ways, n - 1); if ways[n - 1].order < ways[best].order then n - 1 else best
  }

  function Victim(c: Config, ways: seq<Line>, draws: nat): (r: nat)
    requires ValidConfig(c) && |ways| == c.assoc
    ensures r < c.assoc
  {
    var e := FirstEmpty(ways, 0);
    if e < c.assoc then e
    else if c.repl == RANDOM then Rem(c.rand(draws), c.assoc)
    else Oldest(ways, c.assoc)
  }

  predicate Hits(c: Config, s: State, addr: nat)
    requires ValidConfig(c) && ValidState(c, s)
  {
    FindTag(s.sets[SetOf(c, addr)], TagOf(c, addr), 0) < c.assoc
  }

  function Access(c: Config, s: State, addr: nat): (s': State)
    requires ValidConfig(c) && ValidState(c, s)
    ensures ValidState(c, s')
  {
    var k, tag := SetOf(c, addr), TagOf(c, addr);
    var ways := s.sets[k];
    var w := FindTag(ways, tag, 0);
    if w < c.assoc then
      if c.repl == LRU
      then s.(accesses := s.accesses + 1, clock := s.clock + 1,
              sets := s.sets[k := ways[w := ways[w].(order := s.clock + 1)]])
      else s.(accesses := s.accesses + 1)
    else
      var v := Victim(c, ways, s.draws);
      State(s.sets[k := ways[v := Line(true, tag, s.clock + 1)]], s.clock + 1, s.accesses + 1, s.misses + 1,
            if FirstEmpty(ways, 0) == c.assoc && c.repl == RANDOM then s.draws + 1 else s.draws)
  }

  function After(c: Config, h: seq<nat>): (s: State)
    requires ValidConfig(c)
    ensures ValidState(c, s)
  {
    if h == [] then Init(c) else Access(c, After(c, h[..|h| - 1]), h[|h| - 1])
  }

  // ----- What a set has seen -----

  /** For each tag that the history brought to set k, the position (from 1) of its last use. */
  function LastUse(c: Config, h: seq<nat>, k: nat): (last: map<nat, nat>)
    requires ValidConfig(c)
    ensures forall t :: t in last ==> 1 <= last[t] <= |h|
    ensures forall t, u :: t in last && u in last && t != u ==> last[t] != last[u]
  {
    if h == [] then map[]
    else
      var last, a := LastUse(c, h[..|h| - 1], k), h[|h| - 1];
      if SetOf(c, a) == k then last[TagOf(c, a) := |h|] else last
  }

  /** The other tags used since the last use of t: its position in the recency stack is their number. */
  ghost function Newer(last: map<nat, nat>, t: nat): set<nat>
    requires t in last
  {
    set u | u in last && last[t] < last[u]
  }

  // ----- The tags a set holds -----

  ghost predicate Unique(ways: seq<Line>) {
    forall v, w :: 0 <= v < w < |ways| && ways[v].valid && ways[w].valid ==> ways[v].tag != ways[w].tag
  }

  ghost function Resident(ways: seq<Line>): set<nat> {
    set w | 0 <= w < |ways| && ways[w].valid :: ways[w].tag
  }

  lemma {:induction false} ResidentSize(ways: seq<Line>)
    requires Unique(ways)
    ensures |Resident(ways)| <= |ways|
    ensures |Resident(ways)| == |ways| <==> forall w :: 0 <= w < |ways| ==> ways[w].valid
  {
    if ways != [] {
      var n := |ways| - 1;
      ResidentSize(ways[..n]);
      if ways[n].valid {
        assert Resident(ways) == Resident(ways[..n]) + {ways[n].tag};
        assert ways[n].tag !in Resident(ways[..n]);
      } else {
        assert Resident(ways) == Resident(ways[..n]);
      }
      assert forall w :: 0 <= w < n ==> ways[w] == ways[..n][w];
    }
  }

  lemma ResidentHit(ways: seq<Line>, tag: nat)
    ensures FindTag(ways, tag, 0) < |ways| <==> tag in Resident(ways)
  {
  }

  /** Filling way v replaces what it held. */
  lemma ResidentFill(ways: seq<Line>, v: nat, l: Line)
    requires Unique(ways) && v < |ways| && l.valid && l.tag !in Resident(ways)
    ensures Unique(ways[v := l])
    ensures Resident(ways[v := l]) == Resident(ways) - (if ways[v].valid then {ways[v].tag} else {}) + {l.tag}
  {
    var R := Resident(ways) - (if ways[v].valid then {ways[v].tag} else {}) + {l.tag};
    forall t | t in R ensures t in Resident(ways[v := l]) {
      if t == l.tag {
        assert ways[v := l][v].tag == t;
      } else {
        var w :| 0 <= w < |ways| && ways[w].valid && ways[w].tag == t;
        assert ways[v := l][w].tag == t;
      }
    }
    forall t | t in Resident(ways[v := l]) ensures t in R {
      var w :| 0 <= w < |ways| && ways[v := l][w].valid && ways[v := l][w].tag == t;
    }
  }

  // ----- LRU -----

  /** R is the n most recently used tags, or all if there are fewer. */
  ghost predicate MostRecent(R: set<nat>, last: map<nat, nat>, n: int) {
    && R <= last.Keys
    && |R| == (if |last| < n then |last| else n)
    && (forall t, u :: t in R && u in last && u !in R ==> last[u] < last[t])
  }

  ghost predicate Stamped(ways: seq<Line>, last: map<nat, nat>) {
    forall w :: 0 <= w < |ways| && ways[w].valid ==> ways[w].tag in last && ways[w].order == last[ways[w].tag]
  }

  /** The set holds its most recently used tags, as many as it can, stamped with their last use. */
  ghost predicate HoldsMostRecent(c: Config, ways: seq<Line>, last: map<nat, nat>) {
    |ways| == c.assoc && Unique(ways) && Stamped(ways, last) && MostRecent(Resident(ways), last, c.assoc)
  }

  lemma SubsetSize(a: set<nat>, b: set<nat>)
    requires a <= b
    ensures |a| <= |b| && (|a| == |b| ==> a == b)
  {
    assert b == a + (b - a);
  }

  lemma MostRecentOrAll(R: set<nat>, last: map<nat, nat>, n: int)
    requires MostRecent(R, last, n)
    ensures |last| <= n ==> R == last.Keys
  {
    SubsetSize(R, last.Keys);
  }

  /** An access hits exactly when its tag was used before and fewer than `assoc` others were used since. */
  lemma HitsByRecency(c: Config, ways: seq<Line>, last: map<nat, nat>, tag: nat)
    requires HoldsMostRecent(c, ways, last)
    ensures FindTag(ways, tag, 0) < c.assoc <==> tag in last && |Newer(last, tag)| < c.assoc
  {
    ResidentHit(ways, tag);
    MostRecentOrAll(Resident(ways), last, c.assoc);
    if tag in Resident(ways) {
      SubsetSize(Newer(last, tag), Resident(ways) - {tag});
    } else if tag in last {
      SubsetSize(Resident(ways), Newer(last, tag));
    }
  }

  lemma TouchMostRecent(R: set<nat>, last: map<nat, nat>, n: int, tag: nat, now: nat)
    requires MostRecent(R, last, n) && tag in R && forall t :: t in last ==> last[t] < now
    ensures MostRecent(R, last[tag := now], n)
  {
    assert last[tag := now].Keys == last.Keys;
  }

  /** With room left nothing leaves. */
  lemma FillMostRecent(R: set<nat>, last: map<nat, nat>, n: int, tag: nat, now: nat)
    requires MostRecent(R, last, n) && |R| < n && tag !in R
    ensures MostRecent(R + {tag}, last[tag := now], n)
  {
    MostRecentOrAll(R, last, n);
    assert R + {tag} == last[tag := now].Keys;
  }

  /** A full set lets its least recently used tag go. */
  lemma EvictMostRecent(R: set<nat>, last: map<nat, nat>, n: int, o: nat, tag: nat, now: nat)
    requires MostRecent(R, last, n) && |R| == n && tag !in R && o in R
    requires forall t :: t in R && t != o ==> last[o] < last[t]
    requires forall t :: t in last ==> last[t] < now
    ensures MostRecent(R - {o} + {tag}, last[tag := now], n)
  {
    var R', last' := R - {o} + {tag}, last[tag := now];
    assert last'.Keys == last.Keys + {tag};
    assert |R'| == |R| && R' <= last'.Keys;
    SubsetSize(R, last.Keys);
    SubsetSize(last.Keys, last'.Keys);
    forall t, u | t in R' && u in last' && u !in R' ensures last'[u] < last'[t] {
      assert u == o || u !in R;
    }
  }

  lemma ResidentRestamp(ways: seq<Line>, w: nat, now: nat)
    requires w < |ways|
    ensures Resident(ways[w := ways[w].(order := now)]) == Resident(ways)
    ensures Unique(ways) ==> Unique(ways[w := ways[w].(order := now)])
  {
    var ways' := ways[w := ways[w].(order := now)];
    assert forall v :: 0 <= v < |ways| ==> ways'[v].tag == ways[v].tag && ways'[v].valid == ways[v].valid;
    forall t | t in Resident(ways) ensures t in Resident(ways') {
      var v :| 0 <= v < |ways| && ways[v].valid && ways[v].tag == t;
      assert ways'[v].tag == t;
    }
  }

  lemma RestampKeepsMostRecent(c: Config, ways: seq<Line>, last: map<nat, nat>, w: nat, now: nat)
    requires HoldsMostRecent(c, ways, last) && w < |ways| && ways[w].valid
    requires forall t :: t in last ==> last[t] < now
    ensures HoldsMostRecent(c, ways[w := ways[w].(order := now)], last[ways[w].tag := now])
  {
    ResidentRestamp(ways, w, now);
    TouchMostRecent(Resident(ways), last, c.assoc, ways[w].tag, now);
  }

  /** The victim: an empty way if there is one, else the least recently used tag's. */
  ghost predicate LruVictim(ways: seq<Line>, v: nat) {
    && v < |ways|
    && (!ways[v].valid || forall w :: 0 <= w < |ways| ==> ways[w].valid && ways[v].order <= ways[w].order)
  }

  lemma VictimLeaves(c: Config, ways: seq<Line>, last: map<nat, nat>, v: nat)
    requires HoldsMostRecent(c, ways, last) && LruVictim(ways, v)
    requires forall t, u :: t in last && u in last && t != u ==> last[t] != last[u]
    ensures ways[v].valid <==> |Resident(ways)| == c.assoc
    ensures ways[v].valid ==> ways[v].tag in Resident(ways)
    ensures ways[v].valid ==> forall t :: t in Resident(ways) && t != ways[v].tag ==> last[ways[v].tag] < last[t]
  {
    ResidentSize(ways);
    if ways[v].valid {
      forall t | t in Resident(ways) && t != ways[v].tag ensures last[ways[v].tag] < last[t] {
        var w :| 0 <= w < |ways| && ways[w].valid && ways[w].tag == t;
        assert ways[v].order <= ways[w].order;
      }
    }
  }

  lemma ReplaceKeepsMostRecent(c: Config, ways: seq<Line>, last: map<nat, nat>, v: nat, tag: nat, now: nat)
    requires ValidConfig(c) && HoldsMostRecent(c, ways, last) && LruVictim(ways, v) && tag !in Resident(ways)
    requires forall t :: t in last ==> last[t] < now
    requires forall t, u :: t in last && u in last && t != u ==> last[t] != last[u]
    ensures HoldsMostRecent(c, ways[v := Line(true, tag, now)], last[tag := now])
  {
    VictimLeaves(c, ways, last, v);
    ResidentFill(ways, v, Line(true, tag, now));
    if ways[v].valid {
      EvictMostRecent(Resident(ways), last, c.assoc, ways[v].tag, tag, now);
    } else {
      FillMostRecent(Resident(ways), last, c.assoc, tag, now);
      assert Resident(ways) - {} + {tag} == Resident(ways) + {tag};
    }
    ReplaceKeepsStamps(ways, last, v, tag, now);
  }

  lemma ReplaceKeepsStamps(ways: seq<Line>, last: map<nat, nat>, v: nat, tag: nat, now: nat)
    requires Stamped(ways, last) && v < |ways| && tag !in Resident(ways)
    ensures Stamped(ways[v := Line(true, tag, now)], last[tag := now])
  {
  }

  lemma VictimIsLru(c: Config, ways: seq<Line>, draws: nat)
    requires ValidConfig(c) && c.repl == LRU && |ways| == c.assoc
    ensures LruVictim(ways, Victim(c, ways, draws))
  {
  }

  lemma StepKeepsMostRecent(c: Config, s: State, addr: nat, last: map<nat, nat>)
    requires ValidConfig(c) && c.repl == LRU && ValidState(c, s)
    requires HoldsMostRecent(c, s.sets[SetOf(c, addr)], last)
    requires forall t :: t in last ==> last[t] <= s.clock
    requires forall t, u :: t in last && u in last && t != u ==> last[t] != last[u]
    ensures HoldsMostRecent(c, Access(c, s, addr).sets[SetOf(c, addr)], last[TagOf(c, addr) := s.clock + 1])
  {
    hide HoldsMostRecent, LruVictim, Victim, FindTag, Resident, SetOf, TagOf;
    var ways, tag := s.sets[SetOf(c, addr)], TagOf(c, addr);
    var w := FindTag(ways, tag, 0);
    ResidentHit(ways, tag);
    if w < c.assoc {
      RestampKeepsMostRecent(c, ways, last, w, s.clock + 1);
    } else {
      VictimIsLru(c, ways, s.draws);
      ReplaceKeepsMostRecent(c, ways, last, Victim(c, ways, s.draws), tag, s.clock + 1);
    }
  }

  lemma {:induction false} LruInvariant(c: Config, h: seq<nat>, k: nat)
    requires ValidConfig(c) && c.repl == LRU && k < c.nsets
    ensures HoldsMostRecent(c, After(c, h).sets[k], LastUse(c, h, k)) && After(c, h).clock == |h|
  {
    if h == [] {
      assert Resident(Init(c).sets[k]) == {};
    } else {
      var init, a := h[..|h| - 1], h[|h| - 1];
      LruInvariant(c, init, k);
      if SetOf(c, a) == k {
        StepKeepsMostRecent(c, After(c, init), a, LastUse(c, init, k));
      }
    }
  }

  /** Timestamps implement the recency stack: after any history, an access hits exactly when its block is
      among the `assoc` most recently used distinct blocks of its set. */
  lemma LruIsRecencyStack(c: Config, h: seq<nat>, addr: nat)
    requires ValidConfig(c) && c.repl == LRU
    ensures var last := LastUse(c, h, SetOf(c, addr));
            Hits(c, After(c, h), addr)
            <==> TagOf(c, addr) in last && |Newer(last, TagOf(c, addr))| < c.assoc
  {
    LruInvariant(c, h, SetOf(c, addr));
    HitsByRecency(c, After(c, h).sets[SetOf(c, addr)], LastUse(c, h, SetOf(c, addr)), TagOf(c, addr));
  }

  lemma {:induction false} LastUseIgnoresAssociativity(c: Config, b: Config, h: seq<nat>, k: nat)
    requires ValidConfig(c) && ValidConfig(b) && c.nsets == b.nsets && c.blockBytes == b.blockBytes
    ensures LastUse(c, h, k) == LastUse(b, h, k)
  {
    if h != [] {
      LastUseIgnoresAssociativity(c, b, h[..|h| - 1], k);
    }
  }

  /** Inclusion: with the same sets and blocks, more ways hit whenever fewer do. */
  lemma LruInclusion(c: Config, b: Config, h: seq<nat>, addr: nat)
    requires ValidConfig(c) && ValidConfig(b) && c.nsets == b.nsets && c.blockBytes == b.blockBytes
    requires c.repl == LRU && b.repl == LRU && c.assoc <= b.assoc
    ensures Hits(c, After(c, h), addr) ==> Hits(b, After(b, h), addr)
  {
    LruIsRecencyStack(c, h, addr);
    LruIsRecencyStack(b, h, addr);
    LastUseIgnoresAssociativity(c, b, h, SetOf(c, addr));
  }

  /** Hence, on every history, more ways never miss more often. */
  lemma {:induction false} MoreWaysMissLess(c: Config, b: Config, h: seq<nat>)
    requires ValidConfig(c) && ValidConfig(b) && c.nsets == b.nsets && c.blockBytes == b.blockBytes
    requires c.repl == LRU && b.repl == LRU && c.assoc <= b.assoc
    ensures After(b, h).misses <= After(c, h).misses
  {
    if h != [] {
      MoreWaysMissLess(c, b, h[..|h| - 1]);
      LruInclusion(c, b, h[..|h| - 1], h[|h| - 1]);
    }
  }

  // ----- Working sets, under any policy -----

  ghost function Blocks(c: Config, h: seq<nat>): set<nat>
    requires ValidConfig(c)
  {
    set i | 0 <= i < |h| :: BlockOf(c, h[i])
  }

  /** No set sees more tags than it has ways. */
  ghost predicate Fits(c: Config, h: seq<nat>)
    requires ValidConfig(c)
  {
    forall k: nat :: k < c.nsets ==> TagsSeen(c, h, k) <= c.assoc
  }

  function TagsSeen(c: Config, h: seq<nat>, k: nat): nat
    requires ValidConfig(c)
  {
    |LastUse(c, h, k)|
  }

  ghost predicate HoldsUsed(c: Config, ways: seq<Line>, last: map<nat, nat>) {
    && |ways| == c.assoc && Unique(ways) && Resident(ways) <= last.Keys
    && (|last| <= c.assoc ==> Resident(ways) == last.Keys)
  }

  lemma EnterUsed(R: set<nat>, last: map<nat, nat>, n: int, gone: set<nat>, tag: nat, now: nat)
    requires R <= last.Keys && (|last| <= n ==> R == last.Keys) && (|R| < n ==> gone == {}) && |R| <= n && tag !in R
    ensures R - gone + {tag} <= last[tag := now].Keys
    ensures |last[tag := now]| <= n ==> R - gone + {tag} == last[tag := now].Keys
  {
    var last' := last[tag := now];
    assert last'.Keys == last.Keys + {tag};
    SubsetSize(last.Keys, last'.Keys);
    if |last'| <= n {
      assert tag !in last.Keys;
      assert |last'.Keys| == |last.Keys| + 1;
    }
  }

  lemma StepHoldsUsed(c: Config, s: State, addr: nat, last: map<nat, nat>, now: nat)
    requires ValidConfig(c) && ValidState(c, s) && HoldsUsed(c, s.sets[SetOf(c, addr)], last)
    ensures HoldsUsed(c, Access(c, s, addr).sets[SetOf(c, addr)], last[TagOf(c, addr) := now])
  {
    var ways, tag := s.sets[SetOf(c, addr)], TagOf(c, addr);
    var w := FindTag(ways, tag, 0);
    ResidentHit(ways, tag);
    if w < c.assoc {
      ResidentRestamp(ways, w, s.clock + 1);
      assert last[tag := now].Keys == last.Keys;
    } else {
      ReplaceHoldsUsed(c, ways, last, Victim(c, ways, s.draws), Line(true, tag, s.clock + 1), now);
    }
  }

  lemma ReplaceHoldsUsed(c: Config, ways: seq<Line>, last: map<nat, nat>, v: nat, l: Line, now: nat)
    requires HoldsUsed(c, ways, last) && v < |ways| && l.valid && l.tag !in Resident(ways)
    requires ways[v].valid ==> forall w :: 0 <= w < |ways| ==> ways[w].valid
    ensures HoldsUsed(c, ways[v := l], last[l.tag := now])
  {
    ResidentSize(ways);
    ResidentFill(ways, v, l);
    EnterUsed(Resident(ways), last, c.assoc, if ways[v].valid then {ways[v].tag} else {}, l.tag, now);
  }

  lemma {:induction false} HoldsUsedInvariant(c: Config, h: seq<nat>, k: nat)
    requires ValidConfig(c) && k < c.nsets
    ensures HoldsUsed(c, After(c, h).sets[k], LastUse(c, h, k))
  {
    if h == [] {
      assert Resident(Init(c).sets[k]) == {};
    } else {
      var init, a := h[..|h| - 1], h[|h| - 1];
      HoldsUsedInvariant(c, init, k);
      if SetOf(c, a) == k {
        StepHoldsUsed(c, After(c, init), a, LastUse(c, init, k), |h|);
      }
    }
  }

  /** A (set, tag) pair names one block. */
  lemma {:induction false} UsedBlocks(c: Config, h: seq<nat>, addr: nat)
    requires ValidConfig(c)
    ensures TagOf(c, addr) in LastUse(c, h, SetOf(c, addr)) <==> BlockOf(c, addr) in Blocks(c, h)
  {
    if h != [] {
      var init, a := h[..|h| - 1], h[|h| - 1];
      UsedBlocks(c, init, addr);
      assert Blocks(c, h) == Blocks(c, init) + {BlockOf(c, a)} by { BlocksStep(c, init, a); assert h == init + [a]; }
      QuotRemUnique(BlockOf(c, a), c.nsets, TagOf(c, addr), SetOf(c, addr));
      QuotRemUnique(BlockOf(c, addr), c.nsets, TagOf(c, addr), SetOf(c, addr));
    }
  }

  lemma BlocksStep(c: Config, h: seq<nat>, a: nat)
    requires ValidConfig(c)
    ensures Blocks(c, h + [a]) == Blocks(c, h) + {BlockOf(c, a)}
  {
    forall b | b in Blocks(c, h) + {BlockOf(c, a)} ensures b in Blocks(c, h + [a]) {
      if b == BlockOf(c, a) {
        assert (h + [a])[|h|] == a;
      } else {
        var i :| 0 <= i < |h| && BlockOf(c, h[i]) == b;
        assert (h + [a])[i] == h[i];
      }
    }
  }

  lemma FitsPrefix(c: Config, h: seq<nat>)
    requires ValidConfig(c) && h != [] && Fits(c, h)
    ensures Fits(c, h[..|h| - 1])
  {
    var init := h[..|h| - 1];
    forall k: nat | k < c.nsets ensures TagsSeen(c, init, k) <= c.assoc {
      assert TagsSeen(c, h, k) <= c.assoc;
      SubsetSize(LastUse(c, h[..|h| - 1], k).Keys, LastUse(c, h, k).Keys);
    }
  }

  lemma AccessCounts(c: Config, s: State, addr: nat)
    requires ValidConfig(c) && ValidState(c, s)
    ensures Access(c, s, addr).accesses == s.accesses + 1
    ensures Access(c, s, addr).misses == if Hits(c, s, addr) then s.misses else s.misses + 1
  {
  }

  /** One more access counts a miss exactly if it is one. */
  lemma MissCount(c: Config, h: seq<nat>)
    requires ValidConfig(c) && h != []
    ensures var before, a := After(c, h[..|h| - 1]), h[|h| - 1];
            && After(c, h).accesses == before.accesses + 1
            && After(c, h).misses == before.misses + (if Hits(c, before, a) then 0 else 1)
  {
    hide Hits;
    AccessCounts(c, After(c, h[..|h| - 1]), h[|h| - 1]);
    hide Access;
  }

  /** A history touches one block more exactly if its last access is to a new one. */
  lemma BlocksGrow(c: Config, h: seq<nat>)
    requires ValidConfig(c) && h != []
    ensures var before, b := Blocks(c, h[..|h| - 1]), BlockOf(c, h[|h| - 1]);
            |Blocks(c, h)| == |before| + (if b in before then 0 else 1)
  {
    var init, a := h[..|h| - 1], h[|h| - 1];
    BlocksStep(c, init, a);
    assert h == init + [a];
    hide Blocks, BlockOf;
    var before := Blocks(c, init);
    if BlockOf(c, a) in before {
      assert before + {BlockOf(c, a)} == before;
    }
  }

  /** Under any replacement policy misses are at least the distinct blocks touched, and exactly those when the
      working set of every set fits in its ways. */
  lemma {:induction false} WorkingSetFit(c: Config, h: seq<nat>)
    requires ValidConfig(c)
    ensures |Blocks(c, h)| <= After(c, h).misses <= After(c, h).accesses == |h|
    ensures Fits(c, h) ==> After(c, h).misses == |Blocks(c, h)|
  {
    if h == [] {
      assert Blocks(c, h) == {};
    } else {
      hide Blocks, After, Hits, BlockOf, SetOf, ValidState, TagsSeen;
      var init, a := h[..|h| - 1], h[|h| - 1];
      WorkingSetFit(c, init);
      MissOnlyIfNew(c, init, a);
      BlocksGrow(c, h);
      MissCount(c, h);
      if Fits(c, h) {
        FitsPrefix(c, h);
      }
    }
  }

  /** A new block misses; where all seen tags fit, nothing else does. */
  lemma MissOnlyIfNew(c: Config, h: seq<nat>, addr: nat)
    requires ValidConfig(c)
    ensures BlockOf(c, addr) !in Blocks(c, h) ==> !Hits(c, After(c, h), addr)
    ensures TagsSeen(c, h, SetOf(c, addr)) <= c.assoc && BlockOf(c, addr) in Blocks(c, h) ==> Hits(c, After(c, h), addr)
  {
    HoldsUsedInvariant(c, h, SetOf(c, addr));
    ResidentHit(After(c, h).sets[SetOf(c, addr)], TagOf(c, addr));
    UsedBlocks(c, h, addr);
  }
}
