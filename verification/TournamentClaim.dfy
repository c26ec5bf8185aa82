/** When the two-way tournament is never worse than its worse component: only if the global history cannot
    distinguish anything. Otherwise one history per table geometry makes it lose to both. */
module TournamentClaim {
  import opened Arith
  import opened InstStream
  import opened BranchPredictor
  import W = Words
  import FrontEnd

  /** The claim for one geometry: over every branch history, no more mispredictions than the worse component. */
  ghost predicate NeverWorse(n: nat, m: nat) {
    forall h: seq<Branch> :: Mispredicts(Init(Tournament, n, m), h)
                          <= Max(Mispredicts(Init(Bimodal2, n, m), h), Mispredicts(Init(Gshare, n, m), h))
  }

  // ----- Low bits -----

  lemma XorStep(a: nat, b: nat)
    ensures W.XorBits(a, b) == 2 * W.XorBits(a / 2, b / 2) + if a % 2 != b % 2 then 1 else 0
  {
  }

  lemma {:induction false} XorZero(a: nat)
    ensures W.XorBits(a, 0) == a && W.XorBits(0, a) == a
  {
    if a != 0 {
      XorZero(a / 2);
    }
  }

  lemma {:induction false} XorSelf(a: nat)
    ensures W.XorBits(a, a) == 0
  {
    if a != 0 {
      XorSelf(a / 2);
    }
  }

  lemma {:induction false} XorCancels(a: nat, b: nat, c: nat)
    requires W.XorBits(a, c) == W.XorBits(b, c)
    ensures a == b
    decreases a + b + c
  {
    if a + b + c > 0 {
      XorStep(a, c);
      XorStep(b, c);
      XorCancels(a / 2, b / 2, c / 2);
    }
  }

  /** The low bits of a number, one bit at a time. */
  lemma LowBits(x: nat, p: nat)
    requires 1 <= p
    ensures Rem(x, 2 * p) == 2 * Rem(x / 2, p) + x % 2
    ensures Rem(x, 2 * p) / 2 == Rem(x / 2, p) && Rem(x, 2 * p) % 2 == x % 2
  {
    QuotRemIsDivMod(x, 2 * p);
    QuotRemIsDivMod(x / 2, p);
    Halves(x, p);
  }

  lemma NextPower(k: nat)
    requires 1 <= k
    ensures W.Pow2(k) == 2 * W.Pow2(k - 1) && W.Pow2(0) == 1
  {
  }

  lemma {:induction false} XorLow(a: nat, b: nat, k: nat)
    ensures Rem(W.XorBits(a, b), W.Pow2(k)) == W.XorBits(Rem(a, W.Pow2(k)), Rem(b, W.Pow2(k)))
    decreases k
  {
    if k == 0 {
      XorZero(0);
    } else {
      XorLow(a / 2, b / 2, k - 1);
      NextPower(k);
      hide W.XorBits, W.Pow2, Rem;
      XorLowStep(a, b, W.Pow2(k - 1));
    }
  }

  lemma XorLowStep(a: nat, b: nat, p: nat)
    requires 1 <= p && Rem(W.XorBits(a / 2, b / 2), p) == W.XorBits(Rem(a / 2, p), Rem(b / 2, p))
    ensures Rem(W.XorBits(a, b), 2 * p) == W.XorBits(Rem(a, 2 * p), Rem(b, 2 * p))
  {
    RemOfXor(a, b, p);
    XorOfRem(a, b, p);
    SameHalves(Rem(W.XorBits(a, b), 2 * p), W.XorBits(Rem(a, 2 * p), Rem(b, 2 * p)));
  }

  lemma SameHalves(x: nat, y: nat)
    requires x / 2 == y / 2 && x % 2 == y % 2
    ensures x == y
  {
  }

  lemma RemOfXor(a: nat, b: nat, p: nat)
    requires 1 <= p
    ensures var x := Rem(W.XorBits(a, b), 2 * p);
            x / 2 == Rem(W.XorBits(a / 2, b / 2), p) && x % 2 == if a % 2 != b % 2 then 1 else 0
  {
    XorJoin(a, b, a / 2, b / 2, a % 2, b % 2);
    LowBits(W.XorBits(a, b), p);
  }

  lemma XorOfRem(a: nat, b: nat, p: nat)
    requires 1 <= p
    ensures var x := W.XorBits(Rem(a, 2 * p), Rem(b, 2 * p));
            x / 2 == W.XorBits(Rem(a / 2, p), Rem(b / 2, p)) && x % 2 == if a % 2 != b % 2 then 1 else 0
  {
    LowBits(a, p);
    LowBits(b, p);
    XorJoin(Rem(a, 2 * p), Rem(b, 2 * p), Rem(a / 2, p), Rem(b / 2, p), a % 2, b % 2);
  }

  lemma XorJoin(a: nat, b: nat, ha: nat, hb: nat, la: nat, lb: nat)
    requires a == 2 * ha + la && b == 2 * hb + lb && la < 2 && lb < 2
    ensures var x := W.XorBits(a, b); x / 2 == W.XorBits(ha, hb) && x % 2 == if la != lb then 1 else 0
  {
    XorStep(a, b);
    hide W.XorBits;
    assert a / 2 == ha && a % 2 == la && b / 2 == hb && b % 2 == lb;
  }

  lemma {:induction false} RemTwice(x: nat, j: nat, k: nat)
    ensures Rem(Rem(x, W.Pow2(j)), W.Pow2(k)) == Rem(x, W.Pow2(Min(j, k)))
    decreases j
  {
    if j == 0 || k == 0 {
      assert Rem(x, 1) == 0 && Rem(0, W.Pow2(k)) == 0;
    } else {
      var a, c, d := W.Pow2(j - 1), W.Pow2(k - 1), W.Pow2(Min(j - 1, k - 1));
      RemTwice(x / 2, j - 1, k - 1);
      NextPower(j);
      NextPower(k);
      hide W.Pow2, Rem;
      LowBits(x, a);
      LowBits(Rem(x, 2 * a), c);
      LowBits(x, d);
    }
  }

  lemma {:induction false} PowersGrow(j: nat, k: nat)
    requires j <= k
    ensures W.Pow2(j) <= W.Pow2(k)
  {
    if j < k {
      PowersGrow(j, k - 1);
    }
  }

  // ----- The tournament next to its components, as far as a history with small addresses shows -----

  /** How many bits of history the choosers and gshare both see. */
  function Bits(n: nat, m: nat): nat { Min(Min(n, m), 32) }

  function Reach(n: nat, m: nat): nat { W.Pow2(Bits(n, m)) }

  /** The history the choosers see, one outcome later. */
  function Later(seen: nat, taken: bool, size: nat): (s: nat)
    requires 1 <= size
    ensures s < size
  {
    Rem(2 * seen + Indicator(taken), size)
  }

  /** The three tables, the history the choosers see, and the mispredictions of the tournament, bimodal and gshare. */
  datatype Race = Race(table: seq<Counter>, gtable: seq<Counter>, chooser: seq<Counter>, seen: nat, t: nat, b: nat, g: nat)

  function After3(n: nat, m: nat, h: seq<Branch>): Race {
    var p := After(Init(Tournament, n, m), h);
    Race(p.table, p.gtable, p.chooser, Rem(p.ghist, Reach(n, m)), Mispredicts(Init(Tournament, n, m), h),
         Mispredicts(Init(Bimodal2, n, m), h), Mispredicts(Init(Gshare, n, m), h))
  }

  ghost predicate Sized(r: Race, n: nat, m: nat) {
    && |r.table| == |r.gtable| == |r.chooser| == W.Pow2(n)
    && r.seen < Reach(n, m) <= W.Pow2(n)
  }

  /** The branch at word i comes out as `taken`. */
  function Advance(r: Race, i: nat, taken: bool, size: nat): Race
    requires var x := W.XorBits(i, r.seen); 1 <= size && i < |r.table| && x < |r.gtable| && r.seen < |r.chooser|
  {
    var x := W.XorBits(i, r.seen);
    var bim, gsh := r.table[i] >= 2, r.gtable[x] >= 2;
    Race(Bump(r.table, i, taken), Bump(r.gtable, x, taken),
         if bim != gsh then Bump(r.chooser, r.seen, gsh == taken) else r.chooser,
         Later(r.seen, taken, size),
         r.t + Indicator((if r.chooser[r.seen] >= 2 then gsh else bim) != taken),
         r.b + Indicator(bim != taken), r.g + Indicator(gsh != taken))
  }

  predicate Fits(i: nat, n: nat) { i < W.Pow2(n) && 4 * i < W.TWO32 }

  lemma HistorySeen(ghist: Word, n: nat, m: nat)
    ensures Rem(Rem(ghist, W.Pow2(m)), W.Pow2(n)) == Rem(ghist, Reach(n, m))
    ensures 1 <= Reach(n, m) <= W.Pow2(n)
  {
    PowersGrow(Bits(n, m), n);
    W.WordPower();
    RemTwice(ghist, m, n);
    RemTwice(ghist, 32, Min(m, n));
    assert Rem(ghist, W.TWO32) == ghist;
    hide W.Pow2, Rem;
  }

  lemma Indices(p: Pred, n: nat, m: nat, i: nat)
    requires ValidPred(p) && p.entries == W.Pow2(n) && p.histSize == W.Pow2(m) && Fits(i, n)
    ensures var s := Rem(p.ghist, Reach(n, m));
            ChooserIdx(p) == s && BimodalIdx(p, 4 * i) == i && GshareIdx(p, 4 * i) == W.XorBits(i, s)
  {
    HistorySeen(p.ghist, n, m);
    XorLow(i, HistVal(p), n);
    assert Rem(i, W.Pow2(n)) == i;
    hide W.Pow2, W.XorBits, Rem;
  }

  lemma ShiftSeen(g: Word, taken: bool, n: nat, m: nat)
    ensures Rem(Shift(g, taken), Reach(n, m)) == Later(Rem(g, Reach(n, m)), taken, Reach(n, m))
  {
    ShiftLow(g, taken, Bits(n, m));
    hide W.Pow2, Rem, Shift;
    Doubled(g, Indicator(taken), Reach(n, m));
  }

  lemma ShiftLow(g: Word, taken: bool, k: nat)
    requires k <= 32
    ensures Rem(Shift(g, taken), W.Pow2(k)) == Rem(2 * g + Indicator(taken), W.Pow2(k))
  {
    var x := 2 * g + Indicator(taken);
    QuotRemIsDivMod(x, W.TWO32);
    W.WordPower();
    RemTwice(x, 32, k);
    hide W.Pow2, Rem;
  }

  lemma {:induction false} Doubled(g: nat, t: nat, l: nat)
    requires 1 <= l
    ensures Rem(2 * g + t, l) == Rem(2 * Rem(g, l) + t, l)
  {
    if l <= g {
      Doubled(g - l, t, l);
      assert Rem(2 * g + t, l) == Rem(2 * g + t - l, l) == Rem(2 * g + t - l - l, l);
    }
  }

  lemma RaceSized(n: nat, m: nat, h: seq<Branch>)
    ensures Sized(After3(n, m, h), n, m)
  {
    HistorySeen(0, n, m);
  }

  /** What a tournament whose indices are known guesses. */
  lemma TournamentGuess(p: Pred, n: nat, m: nat, i: nat)
    requires ValidPred(p) && p.kind == Tournament && p.entries == W.Pow2(n) && p.histSize == W.Pow2(m) && Fits(i, n)
    ensures var s := Rem(p.ghist, Reach(n, m)); var x := W.XorBits(i, s);
            && i < |p.table| && x < |p.gtable| && s < |p.chooser|
            && BimodalPred(p, 4 * i) == (p.table[i] >= 2) && GsharePred(p, 4 * i) == (p.gtable[x] >= 2)
            && Predict(p, 4 * i) == if p.chooser[s] >= 2 then p.gtable[x] >= 2 else p.table[i] >= 2
  {
    Indices(p, n, m, i);
    hide W.XorBits, W.Pow2, BimodalIdx, GshareIdx, ChooserIdx, Reach, Rem;
  }

  /** And what one branch trains in it. */
  lemma TournamentTrained(p: Pred, n: nat, m: nat, i: nat, taken: bool)
    requires ValidPred(p) && p.kind == Tournament && p.entries == W.Pow2(n) && p.histSize == W.Pow2(m) && Fits(i, n)
    ensures var s := Rem(p.ghist, Reach(n, m)); var x := W.XorBits(i, s); var q := Update(p, 4 * i, taken);
            && i < |p.table| && x < |p.gtable| && s < |p.chooser|
            && q.table == Bump(p.table, i, taken) && q.gtable == Bump(p.gtable, x, taken)
            && q.chooser == if (p.table[i] >= 2) != (p.gtable[x] >= 2)
                            then Bump(p.chooser, s, (p.gtable[x] >= 2) == taken) else p.chooser
  {
    TournamentGuess(p, n, m, i);
    Indices(p, n, m, i);
    hide W.XorBits, W.Pow2, BimodalIdx, GshareIdx, ChooserIdx, BimodalPred, GsharePred, Reach, Shift, Rem, Bump;
  }

  /** The mispredictions one more branch adds to each predictor. */
  lemma OneBranchMissed(n: nat, m: nat, h: seq<Branch>, b: Branch)
    ensures var p := After(Init(Tournament, n, m), h); var h' := h + [b];
            && p.kind == Tournament
            && Mispredicts(Init(Tournament, n, m), h')
               == Mispredicts(Init(Tournament, n, m), h) + Indicator(Predict(p, b.pc) != b.taken)
            && Mispredicts(Init(Bimodal2, n, m), h')
               == Mispredicts(Init(Bimodal2, n, m), h) + Indicator(BimodalPred(p, b.pc) != b.taken)
            && Mispredicts(Init(Gshare, n, m), h')
               == Mispredicts(Init(Gshare, n, m), h) + Indicator(GsharePred(p, b.pc) != b.taken)
            && After(Init(Tournament, n, m), h') == Update(p, b.pc, b.taken)
  {
    OneMore(Init(Tournament, n, m), h, b);
    OneMore(Init(Bimodal2, n, m), h, b);
    OneMore(Init(Gshare, n, m), h, b);
    ComponentsMissAlone(n, m, h, b);
    hide After, Mispredicts, Predict, BimodalPred, GsharePred, Update;
  }

  lemma OneBranchSeen(n: nat, m: nat, h: seq<Branch>, b: Branch)
    ensures 1 <= Reach(n, m)
    ensures After3(n, m, h + [b]).seen == Later(After3(n, m, h).seen, b.taken, Reach(n, m))
  {
    var p := After(Init(Tournament, n, m), h);
    OneMore(Init(Tournament, n, m), h, b);
    ShiftSeen(p.ghist, b.taken, n, m);
    assert p.kind == Tournament;
    assert Update(p, b.pc, b.taken).ghist == Shift(p.ghist, b.taken);
    hide Update, After, Mispredicts, Rem, Shift, Init, Reach, Later;
  }

  lemma RaceTables(n: nat, m: nat, h: seq<Branch>)
    ensures var r, p := After3(n, m, h), After(Init(Tournament, n, m), h);
            r.table == p.table && r.gtable == p.gtable && r.chooser == p.chooser && r.seen == Rem(p.ghist, Reach(n, m))
  {
  }

  lemma RaceMisses(n: nat, m: nat, h: seq<Branch>)
    ensures var r := After3(n, m, h);
            && r.t == Mispredicts(Init(Tournament, n, m), h) && r.b == Mispredicts(Init(Bimodal2, n, m), h)
            && r.g == Mispredicts(Init(Gshare, n, m), h)
  {
  }

  lemma OneBranchTables(n: nat, m: nat, h: seq<Branch>, i: nat, taken: bool)
    requires Fits(i, n)
    ensures var r, r' := After3(n, m, h), After3(n, m, h + [Branch(4 * i, taken)]); var x := W.XorBits(i, r.seen);
            && i < |r.table| && x < |r.gtable| && r.seen < |r.chooser|
            && r'.table == Bump(r.table, i, taken) && r'.gtable == Bump(r.gtable, x, taken)
            && r'.chooser == if (r.table[i] >= 2) != (r.gtable[x] >= 2)
                             then Bump(r.chooser, r.seen, (r.gtable[x] >= 2) == taken) else r.chooser
  {
    OneMore(Init(Tournament, n, m), h, Branch(4 * i, taken));
    TournamentTrained(After(Init(Tournament, n, m), h), n, m, i, taken);
    RaceTables(n, m, h);
    RaceTables(n, m, h + [Branch(4 * i, taken)]);
    hide *;
  }

  lemma OneBranchMisses(n: nat, m: nat, h: seq<Branch>, i: nat, taken: bool)
    requires Fits(i, n)
    ensures var r, r' := After3(n, m, h), After3(n, m, h + [Branch(4 * i, taken)]); var x := W.XorBits(i, r.seen);
            && i < |r.table| && x < |r.gtable| && r.seen < |r.chooser|
            && r'.t == r.t + Indicator((if r.chooser[r.seen] >= 2 then r.gtable[x] >= 2 else r.table[i] >= 2) != taken)
            && r'.b == r.b + Indicator((r.table[i] >= 2) != taken)
            && r'.g == r.g + Indicator((r.gtable[x] >= 2) != taken)
  {
    OneBranchMissed(n, m, h, Branch(4 * i, taken));
    TournamentGuess(After(Init(Tournament, n, m), h), n, m, i);
    RaceTables(n, m, h);
    RaceMisses(n, m, h);
    RaceMisses(n, m, h + [Branch(4 * i, taken)]);
    hide *;
  }

  /** Advance is what one more branch does to all three predictors. */
  lemma OneBranch(n: nat, m: nat, h: seq<Branch>, i: nat, taken: bool)
    requires Fits(i, n)
    ensures var r := After3(n, m, h); var x := W.XorBits(i, r.seen);
            && 1 <= Reach(n, m) && i < |r.table| && x < |r.gtable| && r.seen < |r.chooser|
            && After3(n, m, h + [Branch(4 * i, taken)]) == Advance(r, i, taken, Reach(n, m))
  {
    OneBranchSeen(n, m, h, Branch(4 * i, taken));
    OneBranchTables(n, m, h, i, taken);
    OneBranchMisses(n, m, h, i, taken);
    hide After3, W.XorBits, Reach, Bump, Indicator, Later, Fits;
  }

  // ----- Runs of one taken branch -----

  /** No predictor ahead of another, and every chooser as at the start. */
  ghost predicate Level(r: Race) {
    r.t == r.b == r.g && forall c :: 0 <= c < |r.chooser| ==> r.chooser[c] == 1
  }

  /** The history after j taken branches. */
  function Trail(seen: nat, j: nat, size: nat): nat
    requires 1 <= size
  {
    if j == 0 then seen else Later(Trail(seen, j - 1, size), true, size)
  }

  function Repeat(i: nat, k: nat): seq<Branch>
    requires 4 * i < W.TWO32
  {
    if k == 0 then [] else Repeat(i, k - 1) + [Branch(4 * i, true)]
  }

  lemma RepeatStep(h: seq<Branch>, i: nat, k: nat)
    requires 4 * i < W.TWO32
    ensures h + Repeat(i, k) == if k == 0 then h else h + Repeat(i, k - 1) + [Branch(4 * i, true)]
  {
  }

  /** Gshare predicts taken everywhere but at `avoid`. */
  ghost predicate Strong(g: seq<Counter>, avoid: set<nat>) {
    forall e: nat :: e < |g| && e !in avoid ==> g[e] >= 2
  }

  /** k taken branches at i never index gshare at `avoid`. */
  ghost predicate Clear(seen: nat, i: nat, k: nat, avoid: set<nat>, size: nat)
    requires 1 <= size
  {
    forall j: nat :: j < k ==> W.XorBits(i, Trail(seen, j, size)) !in avoid
  }

  /** What such a run leaves: still level, only counter i and gshare off `avoid` moved, and only upwards. */
  ghost predicate RanUp(r: Race, q: Race, i: nat, k: nat, avoid: set<nat>, size: nat)
    requires 1 <= size
  {
    && Level(q) && q.seen == Trail(r.seen, k, size)
    && |q.table| == |r.table| && |q.gtable| == |r.gtable|
    && (forall e: nat :: e < |q.table| && e != i ==> q.table[e] == r.table[e])
    && (i < |q.table| ==> 2 <= q.table[i] && (1 <= k ==> q.table[i] == 3))
    && (forall e: nat :: e < |q.gtable| && e in avoid ==> q.gtable[e] == r.gtable[e])
    && Strong(q.gtable, avoid)
  }

  lemma OneUp(r: Race, q: Race, i: nat, k: nat, avoid: set<nat>, size: nat)
    requires 1 <= size && RanUp(r, q, i, k, avoid, size) && W.XorBits(i, q.seen) !in avoid
    requires i < |q.table| && W.XorBits(i, q.seen) < |q.gtable| && q.seen < |q.chooser|
    ensures RanUp(r, Advance(q, i, true, size), i, k + 1, avoid, size)
  {
    hide W.XorBits, Later;
    assert Trail(r.seen, k + 1, size) == Later(Trail(r.seen, k, size), true, size);
  }

  lemma {:induction false} Fillers(n: nat, m: nat, h: seq<Branch>, i: nat, k: nat, avoid: set<nat>)
    requires Fits(i, n) && 1 <= Reach(n, m) && i < |After3(n, m, h).table|
    requires Level(After3(n, m, h)) && 2 <= After3(n, m, h).table[i] && Strong(After3(n, m, h).gtable, avoid)
    requires Clear(After3(n, m, h).seen, i, k, avoid, Reach(n, m))
    ensures RanUp(After3(n, m, h), After3(n, m, h + Repeat(i, k)), i, k, avoid, Reach(n, m))
  {
    hide After3, Level, Strong, RanUp, Reach, Clear, W.XorBits, Trail;
    RepeatStep(h, i, k);
    if k == 0 {
      NoneUp(After3(n, m, h), i, avoid, Reach(n, m));
    } else {
      ClearBefore(After3(n, m, h).seen, i, k, avoid, Reach(n, m));
      Fillers(n, m, h, i, k - 1, avoid);
      FillersStep(n, m, h, h + Repeat(i, k - 1), i, k - 1, avoid);
    }
  }

  lemma ClearBefore(seen: nat, i: nat, k: nat, avoid: set<nat>, size: nat)
    requires 1 <= size && 1 <= k && Clear(seen, i, k, avoid, size)
    ensures Clear(seen, i, k - 1, avoid, size) && W.XorBits(i, Trail(seen, k - 1, size)) !in avoid
  {
  }

  lemma FillersStep(n: nat, m: nat, h: seq<Branch>, h': seq<Branch>, i: nat, k: nat, avoid: set<nat>)
    requires Fits(i, n) && 1 <= Reach(n, m)
    requires RanUp(After3(n, m, h), After3(n, m, h'), i, k, avoid, Reach(n, m))
    requires W.XorBits(i, Trail(After3(n, m, h).seen, k, Reach(n, m))) !in avoid
    ensures RanUp(After3(n, m, h), After3(n, m, h' + [Branch(4 * i, true)]), i, k + 1, avoid, Reach(n, m))
  {
    OneBranch(n, m, h', i, true);
    hide After3, RanUp, Reach, Fits, Advance, W.XorBits;
    TrailSeen(After3(n, m, h), After3(n, m, h'), i, k, avoid, Reach(n, m));
    OneUp(After3(n, m, h), After3(n, m, h'), i, k, avoid, Reach(n, m));
  }

  lemma TrailSeen(r: Race, q: Race, i: nat, k: nat, avoid: set<nat>, size: nat)
    requires 1 <= size && RanUp(r, q, i, k, avoid, size)
    ensures q.seen == Trail(r.seen, k, size)
  {
  }

  lemma NoneUp(r: Race, i: nat, avoid: set<nat>, size: nat)
    requires 1 <= size && Level(r) && i < |r.table| && 2 <= r.table[i] && Strong(r.gtable, avoid)
    ensures RanUp(r, r, i, 0, avoid, size)
  {
  }

  // ----- How every losing history ends -----

  /** With the history unchanged by a taken branch: word 0 teaches the chooser gshare, word f then punishes it. */
  ghost predicate Trap(r: Race, f: nat, size: nat)
    requires 1 <= size
  {
    var x, y := W.XorBits(0, r.seen), W.XorBits(f, r.seen);
    && Level(r) && Later(r.seen, true, size) == r.seen && f != 0 && x != y
    && 0 < |r.table| && r.table[0] < 2 && x < |r.gtable| && r.gtable[x] >= 2
    && f < |r.table| && r.table[f] >= 2 && y < |r.gtable| && r.gtable[y] < 2
  }

  lemma TrapSprings(r: Race, f: nat, size: nat)
    requires 1 <= size && Trap(r, f, size) && r.seen < |r.chooser|
    ensures var q := Advance(r, 0, true, size);
            && q.seen == r.seen && f < |q.table| && W.XorBits(f, q.seen) < |q.gtable| && q.seen < |q.chooser|
            && var e := Advance(q, f, true, size);
               e.t == r.t + 2 && e.b == r.b + 1 && e.g == r.g + 1
  {
    hide W.XorBits, Later;
  }

  lemma Trapped(n: nat, m: nat, h: seq<Branch>, f: nat)
    requires Fits(f, n) && 1 <= Reach(n, m) && Trap(After3(n, m, h), f, Reach(n, m))
    ensures !NeverWorse(n, m)
  {
    var h1 := h + [Branch(0, true)];
    var h2 := h1 + [Branch(4 * f, true)];
    OneBranch(n, m, h, 0, true);
    OneBranch(n, m, h1, f, true);
    LevelRace(After3(n, m, h), f, Reach(n, m));
    hide Advance, Trap, Reach, W.XorBits, NeverWorse;
    TrapSprings(After3(n, m, h), f, Reach(n, m));
    Refuted(n, m, h2);
  }

  lemma LevelRace(r: Race, f: nat, size: nat)
    requires 1 <= size && Trap(r, f, size)
    ensures r.t == r.b == r.g
  {
  }

  lemma Refuted(n: nat, m: nat, h: seq<Branch>)
    requires After3(n, m, h).t > After3(n, m, h).b && After3(n, m, h).t > After3(n, m, h).g
    ensures !NeverWorse(n, m)
  {
    hide Mispredicts;
  }

  // ----- Where the history leads -----

  lemma LaterCases(s: nat, taken: bool, size: nat)
    requires s < size
    ensures var t := 2 * s + Indicator(taken); Later(s, taken, size) == if t < size then t else t - size
  {
    var t := 2 * s + Indicator(taken);
    assert Rem(t, size) == if t < size then t else Rem(t - size, size);
  }

  /** From an empty history, ones come in from below. */
  lemma {:induction false} TrailOnes(j: nat, k: nat)
    requires j <= k
    ensures Trail(0, j, W.Pow2(k)) == W.Pow2(j) - 1
  {
    if j > 0 {
      TrailOnes(j - 1, k);
      NextPower(j);
      PowersGrow(j, k);
      LaterCases(W.Pow2(j - 1) - 1, true, W.Pow2(k));
    }
  }

  /** From ones that end in two zeros, the zeros move out at the top. */
  lemma {:induction false} TrailGap(j: nat, k: nat)
    requires 2 <= k && j <= k && 4 <= W.Pow2(k)
    ensures var l := W.Pow2(k);
            Trail(l - 4, j, l) == l - 1 - if j + 2 <= k then 3 * W.Pow2(j) else if j < k then W.Pow2(j) else 0
  {
    var l := W.Pow2(k);
    if j > 0 {
      TrailGap(j - 1, k);
      NextPower(j);
      PowersGrow(j, k);
      GapFits(j, k);
      hide W.Pow2, Later;
      LaterCases(Trail(l - 4, j - 1, l), true, l);
    }
  }

  lemma GapFits(j: nat, k: nat)
    requires 1 <= j <= k
    ensures j + 1 <= k ==> 2 * W.Pow2(j) <= W.Pow2(k)
    ensures j + 2 <= k ==> 4 * W.Pow2(j) <= W.Pow2(k)
    ensures j + 1 == k ==> W.Pow2(k) == 2 * W.Pow2(j)
  {
    if j + 1 <= k {
      NextPower(j + 1);
      PowersGrow(j + 1, k);
    }
    if j + 2 <= k {
      NextPower(j + 2);
      PowersGrow(j + 2, k);
    }
  }

  lemma StrictlyBelow(j: nat, k: nat)
    requires j < k
    ensures W.Pow2(j) < W.Pow2(k)
  {
    NextPower(j + 1);
    PowersGrow(j + 1, k);
  }

  // ----- Up to thirty bits of shared history -----

  lemma Initially(n: nat, m: nat)
    ensures var r := After3(n, m, []);
            && r.seen == 0 && Level(r) && 1 <= Reach(n, m) <= W.Pow2(n) == |r.table| == |r.gtable| == |r.chooser|
            && (forall i :: 0 <= i < |r.table| ==> r.table[i] == 2 && r.gtable[i] == 2)
  {
    HistorySeen(0, n, m);
  }

  lemma Low30(n: nat, m: nat)
    requires 1 <= Bits(n, m) <= 30
    ensures 2 <= Reach(n, m) <= W.Pow2(n) && 4 * Reach(n, m) <= W.TWO32
  {
    PowersGrow(1, Bits(n, m));
    PowersGrow(Bits(n, m), 30);
    PowersGrow(Bits(n, m), n);
    assert W.Pow2(1) == 2 * W.Pow2(0);
    W.WordPower();
    NextPower(32);
    NextPower(31);
  }

  /** Word 0 not taken, which weakens counter 0 of both components. */
  lemma ZeroWeakened(n: nat, m: nat)
    requires 1 <= Bits(n, m)
    ensures var r := After3(n, m, [Branch(0, false)]);
            && r.seen == 0 && Level(r) && 1 <= Reach(n, m) <= |r.table| == |r.gtable| == |r.chooser| == W.Pow2(n)
            && r.table[0] == 1 && r.gtable[0] == 1
            && forall i :: 1 <= i < |r.table| ==> r.table[i] == 2 && r.gtable[i] == 2
  {
    Initially(n, m);
    OneBranch(n, m, [], 0, false);
    assert [] + [Branch(0, false)] == [Branch(0, false)];
    hide After3, W.Pow2, Reach;
    XorZero(0);
    LaterCases(0, false, Reach(n, m));
  }

  lemma NeverZero(n: nat, m: nat)
    requires 1 <= Bits(n, m)
    ensures Clear(0, Reach(n, m) - 1, Bits(n, m), {0}, Reach(n, m))
  {
    var k, l := Bits(n, m), Reach(n, m);
    forall j: nat | j < k ensures W.XorBits(l - 1, Trail(0, j, l)) !in {0} {
      TrailOnes(j, k);
      StrictlyBelow(j, k);
      OnlySelfIsZero(l - 1, Trail(0, j, l));
    }
  }

  lemma OnlySelfIsZero(a: nat, b: nat)
    requires a != b
    ensures W.XorBits(a, b) != 0
  {
    if W.XorBits(a, b) == 0 {
      XorSelf(b);
      XorCancels(a, b, b);
    }
  }

  lemma ShortTrap(r: Race, q: Race, f: nat, k: nat)
    requires 1 <= f && f + 1 == W.Pow2(k) && r.seen == 0 && RanUp(r, q, f, k, {0}, f + 1)
    requires f < |r.table| == |r.gtable|
    requires r.table[0] == 1 && r.gtable[0] == 1
    ensures Trap(q, f, f + 1)
  {
    TrailOnes(k, k);
    LaterCases(f, true, f + 1);
    XorSelf(f);
    XorZero(f);
    hide W.XorBits, Later, W.Pow2, Trail, Level;
    assert q.seen == f && q.table[0] == 1 && q.table[f] >= 2;
    assert q.gtable[0] == 1 && q.gtable[f] >= 2;
    hide RanUp;
  }

  lemma ShortHistories(n: nat, m: nat)
    requires 1 <= Bits(n, m) <= 30
    ensures !NeverWorse(n, m)
  {
    var k, f := Bits(n, m), Reach(n, m) - 1;
    var h := [Branch(0, false)];
    Low30(n, m);
    ZeroWeakened(n, m);
    NeverZero(n, m);
    Fillers(n, m, h, f, k, {0});
    ShortTrap(After3(n, m, h), After3(n, m, h + Repeat(f, k)), f, k);
    hide *;
    Trapped(n, m, h + Repeat(f, k), f);
  }

  // ----- More bits than an instruction address has -----

  /** Word 4 fills; gshare's counters at l - 2 and at XorBits(4, l - 1) are weakened with the history at l - 2 and l - 1. */
  function Aliases(l: nat): set<nat>
    requires 2 <= l
  {
    {l - 2, W.XorBits(4, l - 1)}
  }

  lemma Many(n: nat, m: nat)
    requires 31 <= Bits(n, m)
    ensures 0x8000_0000 <= Reach(n, m) <= W.Pow2(n) && Reach(n, m) % 8 == 0
  {
    var k := Bits(n, m);
    PowersGrow(31, k);
    PowersGrow(k, n);
    W.WordPower();
    NextPower(32);
    NextPower(k);
    NextPower(k - 1);
    NextPower(k - 2);
  }

  lemma XorFour(v: nat)
    ensures W.XorBits(4, v) % 2 == v % 2
    ensures v % 4 == 0 ==> W.XorBits(4, v) % 4 == 0
  {
    XorJoin(4, v, 2, v / 2, 0, v % 2);
    hide W.XorBits;
    if v % 4 == 0 {
      XorJoin(2, v / 2, 1, v / 4, 0, 0);
    }
  }

  lemma XorOne(v: nat)
    requires v % 2 == 1
    ensures W.XorBits(1, v) == v - 1
  {
    XorStep(1, v);
    XorZero(v / 2);
  }

  lemma AliasesApart(l: nat)
    requires 8 <= l && l % 8 == 0
    ensures l - 2 != W.XorBits(4, l - 1) && l - 1 !in Aliases(l)
  {
    XorFour(l - 1);
    if W.XorBits(4, l - 1) == l - 1 {
      XorZero(l - 1);
      XorCancels(4, 0, l - 1);
    }
  }

  lemma FirstRunClear(n: nat, m: nat)
    requires 31 <= Bits(n, m)
    ensures Clear(0, 4, Bits(n, m), {Reach(n, m) - 2}, Reach(n, m))
  {
    var k, l := Bits(n, m), Reach(n, m);
    Many(n, m);
    forall j: nat | j < k ensures W.XorBits(4, Trail(0, j, l)) !in {l - 2} {
      OnesAvoid(j, k);
    }
  }

  lemma OnesAvoid(j: nat, k: nat)
    requires j < k && 8 <= W.Pow2(k) && W.Pow2(k) % 8 == 0
    ensures W.XorBits(4, Trail(0, j, W.Pow2(k))) != W.Pow2(k) - 2
  {
    TrailOnes(j, k);
    if j > 0 {
      NextPower(j);
    }
    hide W.XorBits, Trail;
    XorFour(Trail(0, j, W.Pow2(k)));
  }

  lemma SecondRunClear(n: nat, m: nat)
    requires 31 <= Bits(n, m)
    ensures 8 <= Reach(n, m) && Clear(Reach(n, m) - 4, 4, Bits(n, m), Aliases(Reach(n, m)), Reach(n, m))
  {
    var k, l, v := Bits(n, m), Reach(n, m), Reach(n, m) - 4;
    Many(n, m);
    forall j: nat | j < k ensures W.XorBits(4, Trail(v, j, l)) !in Aliases(l) {
      GapAvoids(j, k);
    }
  }

  lemma GapShape(j: nat, k: nat)
    requires 31 <= k && j < k && 8 <= W.Pow2(k) && W.Pow2(k) % 8 == 0
    ensures var l := W.Pow2(k); var v := Trail(l - 4, j, l);
            v != l - 1 && if j == 0 then v % 4 == 0 else v % 2 == 1
  {
    var l := W.Pow2(k);
    TrailGap(j, k);
    if j > 0 {
      NextPower(j);
      hide Trail, W.Pow2;
      OddBelow(Trail(l - 4, j, l), l, W.Pow2(j - 1));
    }
  }

  lemma OddBelow(v: nat, l: nat, p: nat)
    requires l % 8 == 0 && 1 <= p && (v == l - 1 - 3 * (2 * p) || v == l - 1 - 2 * p)
    ensures v % 2 == 1 && v != l - 1
  {
    var half := if v == l - 1 - 2 * p then p else 3 * p;
    assert v == 2 * (4 * (l / 8) - half) - 1;
  }

  lemma GapAvoids(j: nat, k: nat)
    requires 31 <= k && j < k && 8 <= W.Pow2(k) && W.Pow2(k) % 8 == 0
    ensures var l := W.Pow2(k); W.XorBits(4, Trail(l - 4, j, l)) !in Aliases(l)
  {
    GapShape(j, k);
    hide Trail, W.Pow2;
    FourAvoids(Trail(W.Pow2(k) - 4, j, W.Pow2(k)), W.Pow2(k));
  }

  lemma FourAvoids(v: nat, l: nat)
    requires 8 <= l && l % 8 == 0 && v != l - 1 && (v % 4 == 0 || v % 2 == 1)
    ensures W.XorBits(4, v) !in Aliases(l)
  {
    XorFour(v);
    hide W.XorBits;
    if W.XorBits(4, v) == W.XorBits(4, l - 1) {
      XorCommutes(4, v);
      XorCommutes(4, l - 1);
      XorCancels(v, l - 1, 4);
    }
  }

  lemma {:induction false} XorCommutes(a: nat, b: nat)
    ensures W.XorBits(a, b) == W.XorBits(b, a)
  {
    if a != 0 || b != 0 {
      XorCommutes(a / 2, b / 2);
    }
  }

  /** All counters at 2 but those the first run raised. */
  ghost predicate Raised(r: Race, l: nat) {
    && 8 <= l <= |r.table| == |r.gtable| == |r.chooser| && Level(r) && r.seen == l - 1
    && r.table[4] == 3 && (forall i :: 0 <= i < |r.table| && i != 4 ==> r.table[i] == 2)
    && r.gtable[l - 2] == 2 && forall i :: 0 <= i < |r.gtable| ==> r.gtable[i] >= 2
  }

  /** After the two branches not taken. */
  ghost predicate Weakened(r: Race, l: nat) {
    && 8 <= l <= |r.table| == |r.gtable| == |r.chooser| && Level(r) && r.seen == l - 4
    && r.table[0] == 1 && r.table[4] == 2 && r.table[1] == 2
    && r.gtable[l - 2] == 1 && Strong(r.gtable, Aliases(l))
  }

  lemma FirstRun(n: nat, m: nat)
    requires 31 <= Bits(n, m)
    ensures Raised(After3(n, m, Repeat(4, Bits(n, m))), Reach(n, m))
  {
    var k, l := Bits(n, m), Reach(n, m);
    Many(n, m);
    Initially(n, m);
    FirstRunClear(n, m);
    Fillers(n, m, [], 4, k, {l - 2});
    assert [] + Repeat(4, k) == Repeat(4, k);
    RaceSized(n, m, Repeat(4, k));
    hide After3, W.Pow2, Bits, Clear;
    IsRaised(After3(n, m, []), After3(n, m, Repeat(4, k)), k, l);
  }

  lemma IsRaised(r: Race, q: Race, k: nat, l: nat)
    requires 31 <= k && l == W.Pow2(k) && 8 <= l <= |r.table| == |r.gtable| == |q.chooser| && r.seen == 0
    requires forall i :: 0 <= i < |r.table| ==> r.table[i] == 2 && r.gtable[i] == 2
    requires RanUp(r, q, 4, k, {l - 2}, l)
    ensures Raised(q, l)
  {
    TrailOnes(k, k);
    hide W.Pow2, Trail, Level;
  }

  lemma TwoNotTaken(r: Race, l: nat)
    requires Raised(r, l) && l % 8 == 0 && W.XorBits(4, l - 1) < |r.gtable|
    ensures var q := Advance(r, 4, false, l);
            && q.seen == l - 2 && W.XorBits(0, q.seen) < |q.gtable| && q.seen < |q.chooser|
            && Weakened(Advance(q, 0, false, l), l)
  {
    AliasesApart(l);
    LaterCases(l - 1, false, l);
    LaterCases(l - 2, false, l);
    XorZero(l - 2);
    hide W.XorBits, Later;
  }

  lemma LongTrap(r: Race, q: Race, k: nat, l: nat)
    requires 2 <= k && l == W.Pow2(k) && l % 8 == 0 && Weakened(r, l) && RanUp(r, q, 4, k, Aliases(l), l)
    ensures Trap(q, 1, l)
  {
    TrailGap(k, k);
    LaterCases(l - 1, true, l);
    XorZero(l - 1);
    XorOne(l - 1);
    AliasesApart(l);
    hide W.XorBits, Later, W.Pow2, Trail, Level;
    assert q.seen == l - 1 && q.table[0] == 1 && q.table[1] == 2;
    assert q.gtable[l - 2] == 1 && q.gtable[l - 1] >= 2;
    hide RanUp, Weakened;
  }

  lemma SecondRun(n: nat, m: nat, h: seq<Branch>)
    requires 31 <= Bits(n, m) && Weakened(After3(n, m, h), Reach(n, m))
    ensures !NeverWorse(n, m)
  {
    hide *;
    SecondRunReady(n, m, h);
    Fillers(n, m, h, 4, Bits(n, m), Aliases(Reach(n, m)));
    LastRun(n, m, h, After3(n, m, h));
  }

  lemma SecondRunReady(n: nat, m: nat, h: seq<Branch>)
    requires 31 <= Bits(n, m) && Weakened(After3(n, m, h), Reach(n, m))
    ensures 8 <= Reach(n, m) && Fits(4, n) && 4 < |After3(n, m, h).table|
    ensures Level(After3(n, m, h)) && 2 <= After3(n, m, h).table[4]
    ensures Strong(After3(n, m, h).gtable, Aliases(Reach(n, m)))
    ensures Clear(After3(n, m, h).seen, 4, Bits(n, m), Aliases(Reach(n, m)), Reach(n, m))
  {
    hide After3, Level, Strong, Clear, Weakened, Aliases, Trail;
    Many(n, m);
    assert Fits(4, n);
    SecondRunClear(n, m);
    WeakenedRuns(After3(n, m, h), Reach(n, m));
    hide *;
  }

  lemma WeakenedRuns(r: Race, l: nat)
    requires Weakened(r, l)
    ensures 4 < |r.table| && Level(r) && 2 <= r.table[4] && Strong(r.gtable, Aliases(l)) && r.seen == l - 4
  {
  }

  lemma LastRun(n: nat, m: nat, h: seq<Branch>, r: Race)
    requires 31 <= Bits(n, m) && 8 <= Reach(n, m) && Weakened(r, Reach(n, m))
    requires RanUp(r, After3(n, m, h + Repeat(4, Bits(n, m))), 4, Bits(n, m), Aliases(Reach(n, m)), Reach(n, m))
    ensures !NeverWorse(n, m)
  {
    var k, l := Bits(n, m), Reach(n, m);
    Many(n, m);
    LongTrap(r, After3(n, m, h + Repeat(4, k)), k, l);
    hide *;
    Trapped(n, m, h + Repeat(4, k), 1);
  }

  lemma BothWeakened(n: nat, m: nat, h: seq<Branch>)
    requires 31 <= Bits(n, m) && Raised(After3(n, m, h), Reach(n, m)) && Fits(0, n) && Fits(4, n)
    ensures Weakened(After3(n, m, h + [Branch(16, false)] + [Branch(0, false)]), Reach(n, m))
  {
    var h' := h + [Branch(16, false)];
    Many(n, m);
    OneBranch(n, m, h, 4, false);
    OneBranch(n, m, h', 0, false);
    hide *;
    FromRaised(After3(n, m, h), After3(n, m, h'), After3(n, m, h' + [Branch(0, false)]), Reach(n, m));
  }

  lemma FromRaised(r: Race, r': Race, q: Race, l: nat)
    requires Raised(r, l) && l % 8 == 0 && W.XorBits(4, r.seen) < |r.gtable|
    requires r' == Advance(r, 4, false, l)
    requires 0 < |r'.table| && W.XorBits(0, r'.seen) < |r'.gtable| && r'.seen < |r'.chooser|
    requires q == Advance(r', 0, false, l)
    ensures Weakened(q, l)
  {
    hide W.XorBits, Advance, Weakened;
    TwoNotTaken(r, l);
  }

  lemma LongHistories(n: nat, m: nat)
    requires 31 <= Bits(n, m)
    ensures !NeverWorse(n, m)
  {
    var h := Repeat(4, Bits(n, m));
    Many(n, m);
    FirstRun(n, m);
    BothWeakened(n, m, h);
    hide *;
    SecondRun(n, m, h + [Branch(16, false)] + [Branch(0, false)]);
  }

  // ----- Tables that never differ -----

  /** Without index bits or without history bits gshare indexes like bimodal. */
  lemma SameIndex(p: Pred, pc: Word)
    requires ValidPred(p) && (p.entries == 1 || p.histSize == 1)
    ensures GshareIdx(p, pc) == BimodalIdx(p, pc)
  {
    assert Rem(p.ghist, 1) == 0;
    XorZero(pc / 4);
  }

  /** Equal tables and equal indices train each other's equal. */
  lemma StaysEqual(p: Pred, b: Branch)
    requires ValidPred(p) && p.kind == Tournament && p.table == p.gtable && (p.entries == 1 || p.histSize == 1)
    ensures BimodalPred(p, b.pc) == GsharePred(p, b.pc) == Predict(p, b.pc)
    ensures Update(p, b.pc, b.taken).table == Update(p, b.pc, b.taken).gtable
  {
    SameIndex(p, b.pc);
    hide BimodalIdx, GshareIdx, ChooserIdx;
  }

  lemma {:induction false} SameTables(n: nat, m: nat, h: seq<Branch>)
    requires n == 0 || m == 0
    ensures After(Init(Tournament, n, m), h).table == After(Init(Tournament, n, m), h).gtable
    decreases |h|
  {
    if h != [] {
      SameTables(n, m, Front(h));
      StaysEqual(After(Init(Tournament, n, m), Front(h)), Last(h));
    }
  }

  lemma SameMisses(n: nat, m: nat, h: seq<Branch>, b: Branch)
    requires n == 0 || m == 0
    ensures Mispredicts(Init(Tournament, n, m), h + [b]) - Mispredicts(Init(Tournament, n, m), h)
         == Mispredicts(Init(Bimodal2, n, m), h + [b]) - Mispredicts(Init(Bimodal2, n, m), h)
         == Mispredicts(Init(Gshare, n, m), h + [b]) - Mispredicts(Init(Gshare, n, m), h)
  {
    SameTables(n, m, h);
    StaysEqual(After(Init(Tournament, n, m), h), b);
    OneBranchMissed(n, m, h, b);
    hide *;
  }

  lemma NoneMissed(p: Pred)
    requires ValidPred(p)
    ensures Mispredicts(p, []) == 0
  {
  }

  lemma {:induction false} NeverDiffer(n: nat, m: nat, h: seq<Branch>)
    requires n == 0 || m == 0
    ensures Mispredicts(Init(Tournament, n, m), h) == Mispredicts(Init(Bimodal2, n, m), h)
         == Mispredicts(Init(Gshare, n, m), h)
    decreases |h|
  {
    hide *;
    if h == [] {
      NoneMissed(Init(Tournament, n, m));
      NoneMissed(Init(Bimodal2, n, m));
      NoneMissed(Init(Gshare, n, m));
    } else {
      var init, b := h[..|h| - 1], h[|h| - 1];
      assert init + [b] == h;
      NeverDiffer(n, m, init);
      SameMisses(n, m, init, b);
    }
  }

  /** The claim holds for a geometry exactly if it has no index bits or no history bits. */
  lemma NeverWorseIff(n: nat, m: nat)
    ensures NeverWorse(n, m) <==> n == 0 || m == 0
  {
    if n == 0 || m == 0 {
      forall h: seq<Branch>
        ensures Mispredicts(Init(Tournament, n, m), h)
             <= Max(Mispredicts(Init(Bimodal2, n, m), h), Mispredicts(Init(Gshare, n, m), h))
      {
        NeverDiffer(n, m, h);
      }
    } else if Bits(n, m) <= 30 {
      ShortHistories(n, m);
    } else {
      LongHistories(n, m);
    }
  }

  /** What a predictor of that kind mispredicts in the simulator's configuration b. */
  function Configured(b: FrontEnd.PredictorConfig, kind: Kind, h: seq<Branch>): nat {
    Mispredicts(FrontEnd.InitialPredictor(b.(kind := kind)).pred, h)
  }

  /** As zero bits select the defaults, no configuration of the simulator has the claimed property. */
  lemma EveryTournamentCanLose(b: FrontEnd.PredictorConfig) returns (h: seq<Branch>)
    ensures Configured(b, Tournament, h) > Configured(b, Bimodal2, h)
    ensures Configured(b, Tournament, h) > Configured(b, Gshare, h)
  {
    var n, m := if b.idxBits == 0 then 10 else b.idxBits, if b.ghistBits == 0 then 8 else b.ghistBits;
    NeverWorseIff(n, m);
    hide Mispredicts, Init;
    h :| Mispredicts(Init(Tournament, n, m), h)
       > Max(Mispredicts(Init(Bimodal2, n, m), h), Mispredicts(Init(Gshare, n, m), h));
  }
}
