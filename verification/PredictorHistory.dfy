/** What each predictor answers as a function of the branches seen, without tables: counters are walks over the outcomes that
    were sent to them, and the history register is the last outcomes. */
module PredictorHistory {
  import A = Arith
  import opened InstStream
  import opened BranchPredictor
  import W = Words

  /** The last k outcomes as a binary number, the latest lowest. */
  function Recent(h: seq<Branch>, k: nat): nat {
    if k == 0 || h == [] then 0 else 2 * Recent(Front(h), k - 1) + if Last(h).taken then 1 else 0
  }

  /** One step up for true, one down for false, between 0 and 3. */
  function Walk(start: Counter, votes: seq<bool>): Counter {
    if votes == [] then start
    else
      var c := Walk(start, votes[..|votes| - 1]);
      if votes[|votes| - 1] then (if c == 3 then 3 else c + 1) else if c == 0 then 0 else c - 1
  }

  /** The outcomes of the branches whose instruction address is x modulo n. */
  function OutcomesAt(h: seq<Branch>, n: int, x: nat): seq<bool>
    requires 1 <= n
  {
    if h == [] then [] else OutcomesAt(Front(h), n, x) + if Last(h).pc / 4 % n == x then [Last(h).taken] else []
  }

  /** The register has 32 bits. */
  function Visible(g: nat): nat { if g < 32 then g else 32 }

  function History(h: seq<Branch>, g: nat): Word {
    RecentFits(h, Visible(g));
    PowerMonotone(Visible(g), W.WordBits());
    W.WordPower();
    Recent(h, Visible(g))
  }

  lemma {:induction false} RecentFits(h: seq<Branch>, k: nat)
    ensures Recent(h, k) < W.Pow2(k)
  {
    if k > 0 && h != [] {
      RecentFits(Front(h), k - 1);
    }
  }

  lemma {:induction false} PowerMonotone(j: nat, k: nat)
    requires j <= k
    ensures W.Pow2(j) <= W.Pow2(k)
    decreases k
  {
    if j < k {
      PowerMonotone(j, k - 1);
    }
  }

  /** Gshare sends a branch to its address exclusive-or the history. */
  function GshareEntry(h: seq<Branch>, n: int, g: nat, pc: Word): nat
    requires 1 <= n
  {
    W.Xor(pc / 4, History(h, g)) % n
  }

  /** The outcomes of the branches that gshare sent to entry x. */
  function GshareOutcomesAt(h: seq<Branch>, n: int, g: nat, x: nat): seq<bool>
    requires 1 <= n
  {
    if h == [] then []
    else GshareOutcomesAt(Front(h), n, g, x) + if GshareEntry(Front(h), n, g, Last(h).pc) == x then [Last(h).taken] else []
  }

  predicate OneBitGuess(h: seq<Branch>, n: int, pc: Word)
    requires 1 <= n
  {
    var seen := OutcomesAt(h, n, pc / 4 % n);
    seen != [] && seen[|seen| - 1]
  }

  predicate BimodalGuess(h: seq<Branch>, n: int, pc: Word)
    requires 1 <= n
  {
    Walk(2, OutcomesAt(h, n, pc / 4 % n)) >= 2
  }

  predicate GshareGuess(h: seq<Branch>, n: int, g: nat, pc: Word)
    requires 1 <= n
  {
    Walk(2, GshareOutcomesAt(h, n, g, GshareEntry(h, n, g, pc))) >= 2
  }

  /** Where the two components disagreed under history x: whether gshare was right. */
  function Quarrels(h: seq<Branch>, n: int, g: nat, x: nat): seq<bool>
    requires 1 <= n
  {
    if h == [] then []
    else
      var past, b := Front(h), Last(h);
      Quarrels(past, n, g, x)
      + if History(past, g) % n == x && BimodalGuess(past, n, b.pc) != GshareGuess(past, n, g, b.pc)
        then [GshareGuess(past, n, g, b.pc) == b.taken] else []
  }

  /** How the three components of the three-way tournament did at entry x: 0 static, 1 bimodal, 2 gshare. */
  function Scores(h: seq<Branch>, n: int, g: nat, x: nat, who: nat): seq<bool>
    requires 1 <= n
  {
    if h == [] then []
    else
      var past, b := Front(h), Last(h);
      var guess := if who == 0 then false else if who == 1 then BimodalGuess(past, n, b.pc) else GshareGuess(past, n, g, b.pc);
      Scores(past, n, g, x, who) + if b.pc / 4 % n == x then [guess == b.taken] else []
  }

  /** The prediction for the branch at pc after history h, with n entries and g bits of history. */
  predicate Guess(kind: Kind, n: int, g: nat, h: seq<Branch>, pc: Word)
    requires 1 <= n
  {
    match kind
    case None | StaticNT => false
    case Bimodal1 => OneBitGuess(h, n, pc)
    case Bimodal2 => BimodalGuess(h, n, pc)
    case Gshare => GshareGuess(h, n, g, pc)
    case Tournament =>
      if Walk(1, Quarrels(h, n, g, History(h, g) % n)) >= 2 then GshareGuess(h, n, g, pc) else BimodalGuess(h, n, pc)
    case Tournament3 =>
      var x := pc / 4 % n;
      var s, b, t := Walk(2, Scores(h, n, g, x, 0)), Walk(1, Scores(h, n, g, x, 1)), Walk(1, Scores(h, n, g, x, 2));
      if t >= b && t >= s then GshareGuess(h, n, g, pc) else b >= s && BimodalGuess(h, n, pc)
  }

  // ----- The history register -----

  predicate Recording(kind: Kind) { kind in {Gshare, Tournament, Tournament3} }

  lemma {:induction false} RecentShorter(h: seq<Branch>, k: nat, m: nat)
    requires k <= m
    ensures Recent(h, m) % W.Pow2(k) == Recent(h, k)
    decreases k
  {
    RecentFits(h, k);
    if 0 < k && h != [] {
      RecentShorter(Front(h), k - 1, m - 1);
      A.Halves(Recent(h, m), W.Pow2(k - 1));
    } else if h == [] {
      assert 0 % W.Pow2(k) == 0;
    }
  }

  lemma {:induction false} Register(kind: Kind, idxBits: nat, g: nat, h: seq<Branch>)
    requires Recording(kind)
    ensures After(Init(kind, idxBits, g), h).ghist == Recent(h, 32)
  {
    if h != [] {
      Register(kind, idxBits, g, Front(h));
      W.WordPower();
      RecentShorter(h, 32, 33);
      ShiftsIn(Front(h), Last(h).taken);
    }
  }

  lemma ShiftsIn(h: seq<Branch>, taken: bool)
    ensures Shift(History(h, 32), taken) == (2 * Recent(h, 32) + if taken then 1 else 0) % W.TWO32
  {
  }

  lemma HistoryRead(kind: Kind, idxBits: nat, g: nat, h: seq<Branch>)
    requires Recording(kind)
    ensures HistVal(After(Init(kind, idxBits, g), h)) == History(h, g)
  {
    Register(kind, idxBits, g, h);
    A.QuotRemIsDivMod(Recent(h, 32), W.Pow2(g));
    if g <= 32 {
      RecentShorter(h, g, 32);
    } else {
      RecentFits(h, 32);
      PowerMonotone(32, g);
      SmallMod(Recent(h, 32), W.Pow2(g));
    }
  }

  lemma SmallMod(a: nat, b: nat)
    requires a < b
    ensures a % b == a
  {
  }

  // ----- The entries -----

  lemma BimodalEntry(kind: Kind, idxBits: nat, g: nat, h: seq<Branch>, pc: Word)
    ensures BimodalIdx(After(Init(kind, idxBits, g), h), pc) == pc / 4 % W.Pow2(idxBits)
  {
    A.QuotRemIsDivMod(pc / 4, W.Pow2(idxBits));
  }

  lemma GshareEntryRead(kind: Kind, idxBits: nat, g: nat, h: seq<Branch>, pc: Word)
    requires Recording(kind)
    ensures GshareIdx(After(Init(kind, idxBits, g), h), pc) == GshareEntry(h, W.Pow2(idxBits), g, pc)
  {
    HistoryRead(kind, idxBits, g, h);
    A.QuotRemIsDivMod(W.Xor(pc / 4, History(h, g)), W.Pow2(idxBits));
  }

  lemma ChooserEntry(kind: Kind, idxBits: nat, g: nat, h: seq<Branch>)
    requires Recording(kind)
    ensures ChooserIdx(After(Init(kind, idxBits, g), h)) == History(h, g) % W.Pow2(idxBits)
  {
    HistoryRead(kind, idxBits, g, h);
    A.QuotRemIsDivMod(History(h, g), W.Pow2(idxBits));
  }

  // ----- The tables -----

  lemma WalkOn(start: Counter, votes: seq<bool>, v: bool)
    ensures Walk(start, votes + [v]) == Saturate(Walk(start, votes), v)
    ensures Walk(start, votes + []) == Walk(start, votes)
  {
    assert (votes + [v])[..|votes|] == votes && votes + [] == votes;
  }

  lemma {:induction false} OneBitTable(idxBits: nat, g: nat, h: seq<Branch>, x: nat)
    requires x < W.Pow2(idxBits)
    ensures var seen := OutcomesAt(h, W.Pow2(idxBits), x);
            After(Init(Bimodal1, idxBits, g), h).table[x] == if seen != [] && seen[|seen| - 1] then 1 else 0
  {
    if h != [] {
      OneBitTable(idxBits, g, Front(h), x);
      BimodalEntry(Bimodal1, idxBits, g, Front(h), Last(h).pc);
    }
  }

  /** One entry of a table after one more branch. */
  lemma BumpedEntry(t: seq<Counter>, i: nat, up: bool, x: nat, start: Counter, votes: seq<bool>)
    requires i < |t| && x < |t| && t[x] == Walk(start, votes)
    ensures Bump(t, i, up)[x] == Walk(start, votes + if i == x then [up] else [])
  {
    WalkOn(start, votes, up);
  }

  lemma {:induction false} BimodalTable(kind: Kind, idxBits: nat, g: nat, h: seq<Branch>, x: nat)
    requires kind in {Bimodal2, Tournament, Tournament3} && x < W.Pow2(idxBits)
    ensures After(Init(kind, idxBits, g), h).table[x] == Walk(2, OutcomesAt(h, W.Pow2(idxBits), x))
  {
    if h != [] {
      BimodalTable(kind, idxBits, g, Front(h), x);
      BimodalEntry(kind, idxBits, g, Front(h), Last(h).pc);
      var p := After(Init(kind, idxBits, g), Front(h));
      BumpedEntry(p.table, BimodalIdx(p, Last(h).pc), Last(h).taken, x, 2, OutcomesAt(Front(h), W.Pow2(idxBits), x));
    }
  }

  /** The table gshare reads. */
  function GshareTable(p: Pred): seq<Counter>
    requires ValidPred(p) && Recording(p.kind)
  {
    if p.kind == Gshare then p.table else p.gtable
  }

  lemma {:induction false} GshareTableIs(kind: Kind, idxBits: nat, g: nat, h: seq<Branch>, x: nat)
    requires Recording(kind) && x < W.Pow2(idxBits)
    ensures GshareTable(After(Init(kind, idxBits, g), h))[x] == Walk(2, GshareOutcomesAt(h, W.Pow2(idxBits), g, x))
  {
    if h != [] {
      GshareTableIs(kind, idxBits, g, Front(h), x);
      GshareEntryRead(kind, idxBits, g, Front(h), Last(h).pc);
      var p := After(Init(kind, idxBits, g), Front(h));
      hide GshareEntry, GshareIdx;
      BumpedEntry(GshareTable(p), GshareIdx(p, Last(h).pc), Last(h).taken, x, 2,
                  GshareOutcomesAt(Front(h), W.Pow2(idxBits), g, x));
    }
  }

  lemma BimodalReads(kind: Kind, idxBits: nat, g: nat, h: seq<Branch>, pc: Word)
    requires kind in {Bimodal2, Tournament, Tournament3}
    ensures BimodalPred(After(Init(kind, idxBits, g), h), pc) == BimodalGuess(h, W.Pow2(idxBits), pc)
  {
    BimodalEntry(kind, idxBits, g, h, pc);
    BimodalTable(kind, idxBits, g, h, pc / 4 % W.Pow2(idxBits));
  }

  lemma GshareReads(kind: Kind, idxBits: nat, g: nat, h: seq<Branch>, pc: Word)
    requires Recording(kind)
    ensures var p := After(Init(kind, idxBits, g), h);
            (GshareTable(p)[GshareIdx(p, pc)] >= 2) == GshareGuess(h, W.Pow2(idxBits), g, pc)
  {
    GshareEntryRead(kind, idxBits, g, h, pc);
    hide GshareEntry, GshareIdx;
    GshareTableIs(kind, idxBits, g, h, GshareEntry(h, W.Pow2(idxBits), g, pc));
  }

  // ----- The choosers -----

  lemma {:induction false} ChooserIs(idxBits: nat, g: nat, h: seq<Branch>, x: nat)
    requires x < W.Pow2(idxBits)
    ensures After(Init(Tournament, idxBits, g), h).chooser[x] == Walk(1, Quarrels(h, W.Pow2(idxBits), g, x))
  {
    if h != [] {
      var past, b, n := Front(h), Last(h), W.Pow2(idxBits);
      ChooserIs(idxBits, g, past, x);
      ChooserEntry(Tournament, idxBits, g, past);
      BimodalReads(Tournament, idxBits, g, past, b.pc);
      GshareReads(Tournament, idxBits, g, past, b.pc);
      var p := After(Init(Tournament, idxBits, g), past);
      hide BimodalGuess, GshareGuess, BimodalIdx, GshareIdx, ChooserIdx, History;
      BumpedEntry(p.chooser, ChooserIdx(p), GsharePred(p, b.pc) == b.taken, x, 1, Quarrels(past, n, g, x));
      WalkOn(1, Quarrels(past, n, g, x), true);
    }
  }

  predicate Component(p: Pred, who: nat, pc: Word)
    requires ValidPred(p) && p.kind == Tournament3
  {
    if who == 0 then false else if who == 1 then BimodalPred(p, pc) else GsharePred(p, pc)
  }

  lemma ScoreMoves(p: Pred, pc: Word, taken: bool, x: nat, who: nat)
    requires ValidPred(p) && p.kind == Tournament3 && x < p.entries && who < 3
    ensures var s := p.chooser[3 * x + who];
            Update(p, pc, taken).chooser[3 * x + who]
            == if BimodalIdx(p, pc) == x then Saturate(s, Component(p, who, pc) == taken) else s
  {
    hide BimodalIdx, BimodalPred, GsharePred, GshareIdx, Saturate;
  }

  lemma ScoreStart(idxBits: nat, g: nat, x: nat, who: nat)
    requires x < W.Pow2(idxBits) && who < 3
    ensures Init(Tournament3, idxBits, g).chooser[3 * x + who] == if who == 0 then 2 else 1
  {
    assert (3 * x + who) % 3 == who;
  }

  /** Where the three-way tournament keeps the score of component `who` for entry x, and what it starts from. */
  lemma {:induction false} ScoreIs(idxBits: nat, g: nat, h: seq<Branch>, x: nat, who: nat)
    requires x < W.Pow2(idxBits) && who < 3
    ensures After(Init(Tournament3, idxBits, g), h).chooser[3 * x + who]
         == Walk(if who == 0 then 2 else 1, Scores(h, W.Pow2(idxBits), g, x, who))
  {
    if h != [] {
      var past, b := Front(h), Last(h);
      ScoreIs(idxBits, g, past, x, who);
      BimodalEntry(Tournament3, idxBits, g, past, b.pc);
      BimodalReads(Tournament3, idxBits, g, past, b.pc);
      GshareReads(Tournament3, idxBits, g, past, b.pc);
      var p := After(Init(Tournament3, idxBits, g), past);
      hide BimodalGuess, GshareGuess, BimodalIdx, GshareIdx, Update;
      ScoreMoves(p, b.pc, b.taken, x, who);
      WalkOn(if who == 0 then 2 else 1, Scores(past, W.Pow2(idxBits), g, x, who), Component(p, who, b.pc) == b.taken);
    } else {
      ScoreStart(idxBits, g, x, who);
    }
  }

  // ----- Predictions -----

  lemma ThreeWayPredicts(idxBits: nat, g: nat, h: seq<Branch>, pc: Word)
    ensures Predict(After(Init(Tournament3, idxBits, g), h), pc) == Guess(Tournament3, W.Pow2(idxBits), g, h, pc)
  {
    var x := pc / 4 % W.Pow2(idxBits);
    BimodalEntry(Tournament3, idxBits, g, h, pc);
    hide BimodalIdx, GshareIdx, BimodalGuess, GshareGuess, History, Init, Scores, Walk;
    ScoreIs(idxBits, g, h, x, 0);
    ScoreIs(idxBits, g, h, x, 1);
    ScoreIs(idxBits, g, h, x, 2);
    BimodalReads(Tournament3, idxBits, g, h, pc);
    GshareReads(Tournament3, idxBits, g, h, pc);
  }

  /** Every predictor answers what the history says, for all geometries and all branch histories. */
  lemma PredictsFromHistory(kind: Kind, idxBits: nat, g: nat, h: seq<Branch>, pc: Word)
    ensures Predict(After(Init(kind, idxBits, g), h), pc) == Guess(kind, W.Pow2(idxBits), g, h, pc)
  {
    if kind == Tournament3 {
      ThreeWayPredicts(idxBits, g, h, pc);
    } else {
      BimodalEntry(kind, idxBits, g, h, pc);
      hide BimodalGuess, GshareGuess, History;
      match kind
      case None | StaticNT =>
      case Bimodal1 => OneBitTable(idxBits, g, h, pc / 4 % W.Pow2(idxBits));
      case Bimodal2 => BimodalReads(kind, idxBits, g, h, pc);
      case Gshare => GshareReads(kind, idxBits, g, h, pc);
      case Tournament =>
        BimodalReads(kind, idxBits, g, h, pc);
        GshareReads(kind, idxBits, g, h, pc);
        ChooserEntry(kind, idxBits, g, h);
        ChooserIs(idxBits, g, h, History(h, g) % W.Pow2(idxBits));
    }
  }
}
