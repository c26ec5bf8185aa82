/** Branch predictors: counter tables, global history, tournament choosers and the branch target buffer. */
module BranchPredictor {
  import opened Arith
  import opened InstStream
  import W = Words

  type Counter = c: int | 0 <= c <= 3

  datatype Kind = None | StaticNT | Bimodal1 | Bimodal2 | Gshare | Tournament | Tournament3

  /** Everything a direction prediction depends on. Masking by a power of two is written as a remainder. */
  datatype Pred = Pred(kind: Kind, entries: int, histSize: int,
                       table: seq<Counter>, gtable: seq<Counter>, chooser: seq<Counter>, ghist: Word)

  predicate Hybrid(k: Kind) { k == Tournament || k == Tournament3 }

  predicate ValidPred(p: Pred) {
    && 1 <= p.entries && 1 <= p.histSize
    && |p.table| == p.entries
    && (Hybrid(p.kind) ==> |p.gtable| == p.entries)
    && (p.kind == Tournament ==> |p.chooser| == p.entries)
    && (p.kind == Tournament3 ==> |p.chooser| == 3 * p.entries)
  }

  function Fill(n: nat, c: Counter): (s: seq<Counter>)
    ensures |s| == n && forall i :: 0 <= i < n ==> s[i] == c
  {
    seq(n, _ => c)
  }

  /** Three-way choosers start by trusting the static component. */
  function InitialChooser(kind: Kind, entries: nat): seq<Counter> {
    if kind == Tournament then Fill(entries, 1)
    else if kind == Tournament3 then seq(3 * entries, i requires 0 <= i => if i % 3 == 0 then 2 else 1)
    else []
  }

  function Init(kind: Kind, idxBits: nat, ghistBits: nat): (p: Pred)
    ensures ValidPred(p)
  {
    var n := W.Pow2(idxBits);
    Pred(kind, n, W.Pow2(ghistBits),
         Fill(n, if kind in {Bimodal1, StaticNT, None} then 0 else 2),
         if Hybrid(kind) then Fill(n, 2) else [], InitialChooser(kind, n), 0)
  }

  function Saturate(c: Counter, up: bool): Counter {
    if up then (if c < 3 then c + 1 else c) else if c > 0 then c - 1 else c
  }

  function HistVal(p: Pred): (h: Word)
    requires ValidPred(p)
  {
    Rem(p.ghist, p.histSize)
  }

  function BimodalIdx(p: Pred, pc: Word): (i: nat)
    requires ValidPred(p)
    ensures i < p.entries
  {
    Rem(pc / 4, p.entries)
  }

  function GshareIdx(p: Pred, pc: Word): (i: nat)
    requires ValidPred(p)
    ensures i < p.entries
  {
    Rem(W.Xor(pc / 4, HistVal(p)), p.entries)
  }

  function ChooserIdx(p: Pred): (i: nat)
    requires ValidPred(p)
    ensures i < p.entries
  {
    Rem(HistVal(p), p.entries)
  }

  predicate BimodalPred(p: Pred, pc: Word)
    requires ValidPred(p)
  {
    p.table[BimodalIdx(p, pc)] >= 2
  }

  predicate GsharePred(p: Pred, pc: Word)
    requires ValidPred(p) && Hybrid(p.kind)
  {
    p.gtable[GshareIdx(p, pc)] >= 2
  }

  predicate Predict(p: Pred, pc: Word)
    requires ValidPred(p)
  {
    match p.kind
    case None | StaticNT => false
    case Bimodal1 => p.table[BimodalIdx(p, pc)] != 0
    case Bimodal2 => p.table[BimodalIdx(p, pc)] >= 2
    case Gshare => p.table[GshareIdx(p, pc)] >= 2
    case Tournament => if p.chooser[ChooserIdx(p)] >= 2 then GsharePred(p, pc) else BimodalPred(p, pc)
    case Tournament3 =>
      var base := 3 * BimodalIdx(p, pc);
      var cs, cb, cg := p.chooser[base], p.chooser[base + 1], p.chooser[base + 2];
      if cg >= cb && cg >= cs then GsharePred(p, pc)
      else if cb >= cs then BimodalPred(p, pc)
      else false
  }

  function Bump(t: seq<Counter>, i: nat, up: bool): (t': seq<Counter>)
    requires i < |t|
    ensures |t'| == |t|
  {
    t[i := Saturate(t[i], up)]
  }

  function Shift(h: Word, taken: bool): Word {
    (2 * h + if taken then 1 else 0) % 0x1_0000_0000
  }

  function Update(p: Pred, pc: Word, taken: bool): (p': Pred)
    requires ValidPred(p)
    ensures ValidPred(p') && p'.kind == p.kind && p'.entries == p.entries && p'.histSize == p.histSize
  {
    match p.kind
    case None | StaticNT => p
    case Bimodal1 => p.(table := p.table[BimodalIdx(p, pc) := if taken then 1 else 0])
    case Bimodal2 => p.(table := Bump(p.table, BimodalIdx(p, pc), taken))
    case Gshare => p.(table := Bump(p.table, GshareIdx(p, pc), taken), ghist := Shift(p.ghist, taken))
    case Tournament =>
      var bc, gc := BimodalPred(p, pc) == taken, GsharePred(p, pc) == taken;
      p.(chooser := if bc != gc then Bump(p.chooser, ChooserIdx(p), gc) else p.chooser,
         table := Bump(p.table, BimodalIdx(p, pc), taken),
         gtable := Bump(p.gtable, GshareIdx(p, pc), taken),
         ghist := Shift(p.ghist, taken))
    case Tournament3 =>
      var base := 3 * BimodalIdx(p, pc);
      var c1 := Bump(p.chooser, base, !taken);
      var c2 := Bump(c1, base + 1, BimodalPred(p, pc) == taken);
      p.(chooser := Bump(c2, base + 2, GsharePred(p, pc) == taken),
         table := Bump(p.table, BimodalIdx(p, pc), taken),
         gtable := Bump(p.gtable, GshareIdx(p, pc), taken),
         ghist := Shift(p.ghist, taken))
  }

  // ----- Branch histories -----

  datatype Branch = Branch(pc: Word, taken: bool)

  function Last(h: seq<Branch>): Branch
    requires h != []
  {
    h[|h| - 1]
  }

  function Front(h: seq<Branch>): seq<Branch>
    requires h != []
  {
    h[..|h| - 1]
  }

  function After(p: Pred, h: seq<Branch>): (p': Pred)
    requires ValidPred(p)
    ensures ValidPred(p') && p'.kind == p.kind && p'.entries == p.entries && p'.histSize == p.histSize
  {
    if h == [] then p else Update(After(p, Front(h)), Last(h).pc, Last(h).taken)
  }

  predicate Misses(p: Pred, b: Branch)
    requires ValidPred(p)
  {
    Predict(p, b.pc) != b.taken
  }

  function Indicator(b: bool): nat { if b then 1 else 0 }

  function Mispredicts(p: Pred, h: seq<Branch>): nat
    requires ValidPred(p)
  {
    if h == [] then 0
    else Mispredicts(p, Front(h)) + Indicator(Misses(After(p, Front(h)), Last(h)))
  }

  function Outcomes(h: seq<Branch>, taken: bool): nat {
    if h == [] then 0 else Outcomes(Front(h), taken) + Indicator(Last(h).taken == taken)
  }

  function TableIdx(p: Pred, pc: Word): (i: nat)
    requires ValidPred(p)
    ensures i < p.entries
  {
    if p.kind == Gshare then GshareIdx(p, pc) else BimodalIdx(p, pc)
  }

  /** The counter entries a history trains, aliasing included. */
  function EntriesUsed(p: Pred, h: seq<Branch>): set<nat>
    requires ValidPred(p)
  {
    if h == [] then {} else EntriesUsed(p, Front(h)) + {TableIdx(After(p, Front(h)), Last(h).pc)}
  }

  // ----- Potentials over a table -----

  /** How far a counter is below the taken threshold: the mispredictions it owes to taken branches. */
  function Debt(c: Counter): nat { if c < 2 then 2 - c else 0 }

  /** How far a counter is above the strongest not-taken state it can still predict taken from. */
  function Credit(c: Counter): nat { if c > 1 then c - 1 else 0 }

  function Potential(f: Counter -> nat, t: seq<Counter>, used: set<nat>, n: nat): nat
    requires n <= |t|
  {
    if n == 0 then 0
    else Potential(f, t, used, n - 1) + if n - 1 in used then f(t[n - 1]) else 0
  }

  function Total(f: Counter -> nat, t: seq<Counter>, used: set<nat>): nat { Potential(f, t, used, |t|) }

  lemma {:induction false} PotentialUpdate(f: Counter -> nat, t: seq<Counter>, used: set<nat>, i: nat, v: Counter, n: nat)
    requires i < |t| && n <= |t|
    ensures Potential(f, t[i := v], used + {i}, n)
         == Potential(f, t, used, n) + if i < n then f(v) - (if i in used then f(t[i]) else 0) else 0
  {
    if n > 0 {
      PotentialUpdate(f, t, used, i, v, n - 1);
    }
  }

  lemma {:induction false} PotentialEmpty(f: Counter -> nat, t: seq<Counter>, n: nat)
    requires n <= |t|
    ensures Potential(f, t, {}, n) == 0
  {
    if n > 0 {
      PotentialEmpty(f, t, n - 1);
    }
  }

  ghost predicate UnusedAt(t: seq<Counter>, used: set<nat>, c: Counter) {
    forall i: nat :: i < |t| && i !in used ==> t[i] == c
  }

  // ----- Counter bound -----

  predicate OneTable(k: Kind) { k == Bimodal2 || k == Gshare }

  /** One trained counter: the outcome pays for the misprediction and for the change of both potentials. */
  lemma CounterCore(t: seq<Counter>, i: nat, taken: bool, used: set<nat>)
    requires i < |t| && UnusedAt(t, used, 2)
    ensures UnusedAt(Bump(t, i, taken), used + {i}, 2)
    ensures Indicator((t[i] >= 2) != taken) + Total(Debt, Bump(t, i, taken), used + {i})
         <= Total(Debt, t, used) + 2 * Indicator(!taken)
    ensures Indicator((t[i] >= 2) != taken) + Total(Credit, Bump(t, i, taken), used + {i})
         <= Total(Credit, t, used) + 2 * Indicator(taken) + |used + {i}| - |used|
  {
    PotentialUpdate(Debt, t, used, i, Saturate(t[i], taken), |t|);
    PotentialUpdate(Credit, t, used, i, Saturate(t[i], taken), |t|);
    if i in used {
      assert used + {i} == used;
    } else {
      assert |used + {i}| == |used| + 1;
    }
  }

  /** The charges behind the bound: every outcome pays for at most two mispredictions, now or later. */
  lemma {:induction false} CounterCharges(p: Pred, h: seq<Branch>)
    requires ValidPred(p) && OneTable(p.kind) && UnusedAt(p.table, {}, 2)
    ensures UnusedAt(After(p, h).table, EntriesUsed(p, h), 2)
    ensures Mispredicts(p, h) + Total(Debt, After(p, h).table, EntriesUsed(p, h)) <= 2 * Outcomes(h, false)
    ensures Mispredicts(p, h) + Total(Credit, After(p, h).table, EntriesUsed(p, h))
         <= 2 * Outcomes(h, true) + |EntriesUsed(p, h)|
  {
    if h == [] {
      PotentialEmpty(Debt, p.table, |p.table|);
      PotentialEmpty(Credit, p.table, |p.table|);
    } else {
      CounterCharges(p, Front(h));
      var q := After(p, Front(h));
      CounterCore(q.table, TableIdx(q, Last(h).pc), Last(h).taken, EntriesUsed(p, Front(h)));
    }
  }

  /** 2-bit bimodal and gshare mispredict at most twice per not-taken outcome, and at most twice per taken
      outcome plus once per counter used, on every branch history. */
  lemma CounterBound(kind: Kind, idxBits: nat, ghistBits: nat, h: seq<Branch>)
    requires OneTable(kind)
    ensures Mispredicts(Init(kind, idxBits, ghistBits), h) <= 2 * Outcomes(h, false)
    ensures Mispredicts(Init(kind, idxBits, ghistBits), h)
         <= 2 * Outcomes(h, true) + |EntriesUsed(Init(kind, idxBits, ghistBits), h)|
  {
    CounterCharges(Init(kind, idxBits, ghistBits), h);
  }

  // ----- Tournament -----

  /** The components of a tournament evolve as if each were alone. */
  lemma {:induction false} ComponentsEvolveAlone(idxBits: nat, ghistBits: nat, h: seq<Branch>)
    ensures var t := After(Init(Tournament, idxBits, ghistBits), h);
            var b := After(Init(Bimodal2, idxBits, ghistBits), h);
            var g := After(Init(Gshare, idxBits, ghistBits), h);
            t.table == b.table && t.gtable == g.table && t.ghist == g.ghist
    decreases |h|
  {
    if h != [] {
      ComponentsEvolveAlone(idxBits, ghistBits, Front(h));
    }
  }

  lemma ComponentsMissAlone(idxBits: nat, ghistBits: nat, h: seq<Branch>, b: Branch)
    ensures var t := After(Init(Tournament, idxBits, ghistBits), h);
            && (BimodalPred(t, b.pc) == b.taken <==> !Misses(After(Init(Bimodal2, idxBits, ghistBits), h), b))
            && (GsharePred(t, b.pc) == b.taken <==> !Misses(After(Init(Gshare, idxBits, ghistBits), h), b))
  {
    ComponentsEvolveAlone(idxBits, ghistBits, h);
  }

  /** The chooser entries that some disagreement of the components has trained. */
  function ChoosersUsed(p: Pred, h: seq<Branch>): set<nat>
    requires ValidPred(p) && p.kind == Tournament
  {
    if h == [] then {} else ChoosersUsed(p, Front(h)) + ChooserTrained(After(p, Front(h)), Last(h).pc)
  }

  function ChooserTrained(q: Pred, pc: Word): set<nat>
    requires ValidPred(q) && q.kind == Tournament
  {
    if BimodalPred(q, pc) != GsharePred(q, pc) then {ChooserIdx(q)} else {}
  }

  /** One chooser decision, with the correctness bc and gc of the two components. */
  lemma ChooserCore(ch: seq<Counter>, i: nat, bc: bool, gc: bool, used: set<nat>)
    requires i < |ch| && UnusedAt(ch, used, 1) && bc != gc
    ensures UnusedAt(Bump(ch, i, gc), used + {i}, 1)
    ensures Indicator(if ch[i] >= 2 then !gc else !bc) + Total(Credit, Bump(ch, i, gc), used + {i})
         <= Total(Credit, ch, used) + 2 * Indicator(!bc)
    ensures Indicator(if ch[i] >= 2 then !gc else !bc) + Total(Debt, Bump(ch, i, gc), used + {i})
         <= Total(Debt, ch, used) + 2 * Indicator(!gc) + |used + {i}| - |used|
  {
    PotentialUpdate(Debt, ch, used, i, Saturate(ch[i], gc), |ch|);
    PotentialUpdate(Credit, ch, used, i, Saturate(ch[i], gc), |ch|);
    if i in used {
      assert used + {i} == used;
    } else {
      assert |used + {i}| == |used| + 1;
    }
  }

  /** mt, mb, mg: mispredictions so far of the tournament, of bimodal and of gshare. */
  ghost predicate Paid(ch: seq<Counter>, used: set<nat>, mt: nat, mb: nat, mg: nat) {
    && UnusedAt(ch, used, 1)
    && mt + Total(Credit, ch, used) <= 2 * mb
    && mt + Total(Debt, ch, used) <= 2 * mg + |used|
  }

  lemma ChooserStep(q: Pred, b: Branch, used: set<nat>, mt: nat, mb: nat, mg: nat)
    requires ValidPred(q) && q.kind == Tournament && Paid(q.chooser, used, mt, mb, mg)
    ensures Paid(Update(q, b.pc, b.taken).chooser, used + ChooserTrained(q, b.pc), mt + Indicator(Misses(q, b)),
                 mb + Indicator(BimodalPred(q, b.pc) != b.taken), mg + Indicator(GsharePred(q, b.pc) != b.taken))
  {
    var bc, gc := BimodalPred(q, b.pc) == b.taken, GsharePred(q, b.pc) == b.taken;
    assert Misses(q, b) == if q.chooser[ChooserIdx(q)] >= 2 then !gc else !bc;
    if bc != gc {
      ChooserCore(q.chooser, ChooserIdx(q), bc, gc, used);
    } else {
      assert used + ChooserTrained(q, b.pc) == used;
    }
  }

  lemma {:induction false} ChooserCharges(idxBits: nat, ghistBits: nat, h: seq<Branch>)
    ensures var t := Init(Tournament, idxBits, ghistBits);
            Paid(After(t, h).chooser, ChoosersUsed(t, h), Mispredicts(t, h),
                 Mispredicts(Init(Bimodal2, idxBits, ghistBits), h), Mispredicts(Init(Gshare, idxBits, ghistBits), h))
    decreases |h|
  {
    var t := Init(Tournament, idxBits, ghistBits);
    if h == [] {
      PotentialEmpty(Debt, t.chooser, |t.chooser|);
      PotentialEmpty(Credit, t.chooser, |t.chooser|);
    } else {
      ChooserCharges(idxBits, ghistBits, Front(h));
      ComponentsMissAlone(idxBits, ghistBits, Front(h), Last(h));
      var bm, gs := Init(Bimodal2, idxBits, ghistBits), Init(Gshare, idxBits, ghistBits);
      ChooserStep(After(t, Front(h)), Last(h), ChoosersUsed(t, Front(h)),
                  Mispredicts(t, Front(h)), Mispredicts(bm, Front(h)), Mispredicts(gs, Front(h)));
    }
  }

  /** The tournament is competitive with both components, on every branch history. */
  lemma TournamentBound(idxBits: nat, ghistBits: nat, h: seq<Branch>)
    ensures Mispredicts(Init(Tournament, idxBits, ghistBits), h)
         <= 2 * Mispredicts(Init(Bimodal2, idxBits, ghistBits), h)
    ensures Mispredicts(Init(Tournament, idxBits, ghistBits), h)
         <= 2 * Mispredicts(Init(Gshare, idxBits, ghistBits), h)
            + |ChoosersUsed(Init(Tournament, idxBits, ghistBits), h)|
  {
    ChooserCharges(idxBits, ghistBits, h);
  }

  lemma OneMore(p: Pred, h: seq<Branch>, b: Branch)
    requires ValidPred(p)
    ensures After(p, h + [b]) == Update(After(p, h), b.pc, b.taken)
    ensures Mispredicts(p, h + [b]) == Mispredicts(p, h) + Indicator(Misses(After(p, h), b))
  {
    assert Front(h + [b]) == h;
  }
}
