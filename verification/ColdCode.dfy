/** How exact the bound on the safety net is: code that touches every block once, in front of a slow second level. */
module ColdCode {
  import opened Arith
  import opened InstStream
  import opened Pipeline
  import opened MemoryHierarchy
  import opened PipelineSim
  import opened MemoryStalls
  import opened FrontEnd
  import BP = BranchPredictor
  import BranchUnit
  import CM = CacheModel
  import T = TimingClaims

  // ----- Streams that miss whenever they can -----

  predicate Accesses(c: Hierarchy, d: Inst) { c.dcache.enabled && d.accessesMem }

  ghost predicate PcsDiffer(c: CM.Config, S: seq<Inst>)
    requires CM.ValidConfig(c)
  {
    forall i, j :: 0 <= i < j < |S| ==> CM.BlockOf(c, S[i].pc) != CM.BlockOf(c, S[j].pc)
  }

  ghost predicate DataDiffer(c: CM.Config, S: seq<Inst>)
    requires CM.ValidConfig(c)
  {
    forall i, j :: 0 <= i < j < |S| && S[i].accessesMem && S[j].accessesMem ==>
      CM.BlockOf(c, S[i].memAddr) != CM.BlockOf(c, S[j].memAddr)
  }

  ghost predicate Apart(c: CM.Config, S: seq<Inst>)
    requires CM.ValidConfig(c)
  {
    forall i, j :: 0 <= i < |S| && 0 <= j < |S| && S[j].accessesMem ==> CM.BlockOf(c, S[i].pc) != CM.BlockOf(c, S[j].memAddr)
  }

  /** No block of a level that is asked is touched twice. */
  ghost predicate Cold(c: Hierarchy, S: seq<Inst>)
    requires ValidHierarchy(c)
  {
    && c.l2.enabled
    && (c.icache.enabled ==> PcsDiffer(c.icache, S) && PcsDiffer(c.l2, S))
    && (c.dcache.enabled ==> DataDiffer(c.dcache, S) && DataDiffer(c.l2, S))
    && (c.icache.enabled && c.dcache.enabled ==> Apart(c.l2, S))
  }

  lemma {:induction false} FetchAddrsAt(S: seq<Inst>, k: nat)
    requires k <= |S|
    ensures forall i :: 0 <= i < k ==> FetchAddrs(S, k)[i] == S[i].pc
  {
    if k > 0 {
      FetchAddrsAt(S, k - 1);
    }
  }

  lemma {:induction false} DataAddrsFrom(S: seq<Inst>, k: nat, a: nat)
    requires k <= |S| && a in DataAddrs(S, k)
    ensures exists i :: 0 <= i < k && S[i].accessesMem && S[i].memAddr == a
  {
    if k > 0 && !(S[k - 1].accessesMem && S[k - 1].memAddr == a) {
      DataAddrsFrom(S, k - 1, a);
    }
  }

  lemma FetchIsNew(c: CM.Config, S: seq<Inst>, k: nat)
    requires CM.ValidConfig(c) && PcsDiffer(c, S) && k < |S|
    ensures !CM.Hits(c, CM.After(c, FetchAddrs(S, k)), S[k].pc)
  {
    FetchAddrsAt(S, k);
    hide CM.After, CM.Hits, CM.BlockOf;
    CM.MissOnlyIfNew(c, FetchAddrs(S, k), S[k].pc);
  }

  lemma DataIsNew(c: CM.Config, S: seq<Inst>, k: nat)
    requires CM.ValidConfig(c) && DataDiffer(c, S) && k < |S| && S[k].accessesMem
    ensures !CM.Hits(c, CM.After(c, DataAddrs(S, k)), S[k].memAddr)
  {
    var h := DataAddrs(S, k);
    hide CM.After, CM.Hits, CM.BlockOf, DataAddrs;
    forall i | 0 <= i < |h| ensures CM.BlockOf(c, h[i]) != CM.BlockOf(c, S[k].memAddr) {
      DataAddrsFrom(S, k, h[i]);
    }
    CM.MissOnlyIfNew(c, h, S[k].memAddr);
  }

  /** The blocks of the second level that n fetches and m data accesses have touched. */
  ghost predicate Touched(c: Hierarchy, S: seq<Inst>, n: nat, m: nat, b: nat)
    requires ValidHierarchy(c) && n <= |S| && m <= |S|
  {
    || (c.icache.enabled && exists i :: 0 <= i < n && CM.BlockOf(c.l2, S[i].pc) == b)
    || (c.dcache.enabled && exists i :: 0 <= i < m && S[i].accessesMem && CM.BlockOf(c.l2, S[i].memAddr) == b)
  }

  /** How often n fetches and m instructions in MEM have asked the second level. */
  function Asked(c: Hierarchy, S: seq<Inst>, n: nat, m: nat): nat
    requires m <= |S|
  {
    (if c.icache.enabled then n else 0) + if c.dcache.enabled then |DataAddrs(S, m)| else 0
  }

  /** The second level has been asked that often, for blocks touched so far, and has missed every time. */
  ghost predicate AllMissed(c: Hierarchy, S: seq<Inst>, l2: CM.State, n: nat, m: nat)
    requires ValidHierarchy(c) && n <= |S| && m <= |S|
  {
    && l2.misses == l2.accesses == Asked(c, S, n, m)
    && exists h: seq<nat> :: l2 == CM.After(c.l2, h) && Explains(c, S, h, n, m)
  }

  /** The same history, one address longer. */
  ghost predicate Explains(c: Hierarchy, S: seq<Inst>, h: seq<nat>, n: nat, m: nat)
    requires ValidHierarchy(c) && n <= |S| && m <= |S|
  {
    forall i :: 0 <= i < |h| ==> Touched(c, S, n, m, CM.BlockOf(c.l2, h[i]))
  }

  lemma ExplainsMore(c: Hierarchy, S: seq<Inst>, h: seq<nat>, n: nat, m: nat, n': nat, m': nat, addr: nat)
    requires ValidHierarchy(c) && n <= n' <= |S| && m <= m' <= |S| && Explains(c, S, h, n, m)
    requires Touched(c, S, n', m', CM.BlockOf(c.l2, addr))
    ensures Explains(c, S, h, n', m') && Explains(c, S, h + [addr], n', m')
  {
    TouchedMore(c, S, n, m, n', m');
    hide Touched, CM.BlockOf;
  }

  lemma NewToHistory(c: Hierarchy, S: seq<Inst>, h: seq<nat>, n: nat, m: nat, addr: nat)
    requires ValidHierarchy(c) && n <= |S| && m <= |S| && Explains(c, S, h, n, m)
    requires !Touched(c, S, n, m, CM.BlockOf(c.l2, addr))
    ensures !CM.Hits(c.l2, CM.After(c.l2, h), addr)
  {
    hide Touched, CM.After, CM.BlockOf, CM.Hits;
    CM.MissOnlyIfNew(c.l2, h, addr);
  }

  lemma NewBlockMisses(c: Hierarchy, S: seq<Inst>, l2: CM.State, n: nat, m: nat, n': nat, m': nat, addr: nat)
    requires ValidHierarchy(c) && n <= n' <= |S| && m <= m' <= |S| && AllMissed(c, S, l2, n, m)
    requires !Touched(c, S, n, m, CM.BlockOf(c.l2, addr)) && Touched(c, S, n', m', CM.BlockOf(c.l2, addr))
    requires Asked(c, S, n', m') == Asked(c, S, n, m) + 1
    ensures CM.ValidState(c.l2, l2) && !CM.Hits(c.l2, l2, addr) && AllMissed(c, S, CM.Access(c.l2, l2, addr), n', m')
  {
    hide CM.After, CM.BlockOf, Touched, Asked, CM.Hits, CM.Access;
    var h: seq<nat> :| l2 == CM.After(c.l2, h) && Explains(c, S, h, n, m);
    NewToHistory(c, S, h, n, m, addr);
    ExplainsMore(c, S, h, n, m, n', m', addr);
    AfterOneMore(c.l2, h, addr);
    MissCounts(c.l2, l2, addr);
    assert Explains(c, S, h + [addr], n', m');
  }

  lemma TouchedMore(c: Hierarchy, S: seq<Inst>, n: nat, m: nat, n': nat, m': nat)
    requires ValidHierarchy(c) && n <= n' <= |S| && m <= m' <= |S|
    ensures forall b: nat :: Touched(c, S, n, m, b) ==> Touched(c, S, n', m', b)
  {
  }

  lemma StaysMissed(c: Hierarchy, S: seq<Inst>, l2: CM.State, n: nat, m: nat, n': nat, m': nat)
    requires ValidHierarchy(c) && n <= n' <= |S| && m <= m' <= |S| && AllMissed(c, S, l2, n, m)
    requires Asked(c, S, n', m') == Asked(c, S, n, m)
    ensures AllMissed(c, S, l2, n', m')
  {
    TouchedMore(c, S, n, m, n', m');
    hide CM.After, CM.BlockOf, Touched, Asked;
    var h: seq<nat> :| l2 == CM.After(c.l2, h) && Explains(c, S, h, n, m);
    assert Explains(c, S, h, n', m');
  }

  lemma MissCounts(c: CM.Config, s: CM.State, addr: nat)
    requires CM.ValidConfig(c) && CM.ValidState(c, s) && !CM.Hits(c, s, addr)
    ensures CM.Access(c, s, addr).misses == s.misses + 1 && CM.Access(c, s, addr).accesses == s.accesses + 1
  {
  }

  lemma FetchTouches(c: Hierarchy, S: seq<Inst>, n: nat, m: nat)
    requires ValidHierarchy(c) && Cold(c, S) && c.icache.enabled && n < |S| && m <= n
    ensures var b := CM.BlockOf(c.l2, S[n].pc); !Touched(c, S, n, m, b) && Touched(c, S, n + 1, m, b)
    ensures Asked(c, S, n + 1, m) == Asked(c, S, n, m) + 1
  {
    hide CM.BlockOf, DataAddrs;
  }

  lemma DataTouches(c: Hierarchy, S: seq<Inst>, n: nat, m: nat)
    requires ValidHierarchy(c) && Cold(c, S) && n <= |S| && m < |S| && Accesses(c, S[m])
    ensures var b := CM.BlockOf(c.l2, S[m].memAddr); !Touched(c, S, n, m, b) && Touched(c, S, n, m + 1, b)
    ensures Asked(c, S, n, m + 1) == Asked(c, S, n, m) + 1
  {
    hide CM.BlockOf;
  }

  lemma NoDataTouched(c: Hierarchy, S: seq<Inst>, n: nat, m: nat)
    requires m < |S| && !Accesses(c, S[m])
    ensures Asked(c, S, n, m + 1) == Asked(c, S, n, m)
  {
  }

  // ----- Every run of such a stream -----

  lemma ColdData(c: Hierarchy, S: seq<Inst>)
    requires ValidHierarchy(c) && Cold(c, S) && c.dcache.enabled
    ensures c.l2.enabled && DataDiffer(c.dcache, S) && DataDiffer(c.l2, S)
  {
  }

  /** A data access that misses both levels. */
  lemma AccessMisses(c: Hierarchy, S: seq<Inst>, s: Caches, n: nat, m: nat)
    requires ValidHierarchy(c) && ValidCaches(c, s) && Cold(c, S) && n <= |S| && m < |S| && Accesses(c, S[m])
    requires s.dc == CM.After(c.dcache, DataAddrs(S, m)) && AllMissed(c, S, s.l2, n, m)
    ensures AllMissed(c, S, DataAccess(c, s, S[m]).caches.l2, n, m + 1)
  {
    hide AllMissed, Cold, Touched, Asked, DataDiffer, CM.After, CM.Hits, CM.BlockOf, DataAddrs, ValidCaches, CM.Access;
    ColdData(c, S);
    DataIsNew(c.dcache, S, m);
    DataTouches(c, S, n, m);
    NewBlockMisses(c, S, s.l2, n, m, n, m + 1, S[m].memAddr);
  }

  lemma NoAccess(c: Hierarchy, S: seq<Inst>, s: Caches, n: nat, m: nat)
    requires ValidHierarchy(c) && ValidCaches(c, s) && n <= |S| && m < |S| && !Accesses(c, S[m]) && AllMissed(c, S, s.l2, n, m)
    ensures AllMissed(c, S, DataAccess(c, s, S[m]).caches.l2, n, m + 1)
  {
    NoDataTouched(c, S, n, m);
    hide AllMissed, Asked, ValidCaches;
    StaysMissed(c, S, s.l2, n, m, n, m + 1);
  }

  lemma MemIndex(p: Pipe, n: nat)
    requires Ordered(p, n)
    ensures p.ex >= 0 ==> p.ex == EnteredMem(p) < n && EnteredEx(p) == EnteredMem(p) + 1
    ensures p.ex < 0 ==> EnteredEx(p) == EnteredMem(p)
    ensures EnteredEx(p) <= p.next <= n
  {
  }

  /** Before a data access and after it. */
  lemma DataPhaseMisses(c: PipeConfig, S: seq<Inst>, p: Pipe, s: Caches)
    requires ValidHierarchy(c.mem) && ValidCaches(c.mem, s) && Ordered(p, |S|) && InStream(p, |S|) && Cold(c.mem, S)
    requires c.mem.dcache.enabled ==> s.dc == CM.After(c.mem.dcache, DataAddrs(S, EnteredMem(p)))
    requires AllMissed(c.mem, S, s.l2, p.next, EnteredMem(p))
    ensures AllMissed(c.mem, S, DataPhase(c, S, p, s).caches.l2, p.next, if p.memStall <= 0 then EnteredEx(p) else EnteredMem(p))
  {
    hide AllMissed, Cold, DataAccess, ValidCaches, Ordered, EnteredMem, EnteredEx, DataAddrs, CM.After, Accesses, ValidHierarchy;
    MemIndex(p, |S|);
    if p.memStall <= 0 && p.ex >= 0 {
      AccessEither(c.mem, S, s, p.next, EnteredMem(p));
    }
  }

  lemma AccessEither(c: Hierarchy, S: seq<Inst>, s: Caches, n: nat, m: nat)
    requires ValidHierarchy(c) && ValidCaches(c, s) && Cold(c, S) && n <= |S| && m < |S|
    requires c.dcache.enabled ==> s.dc == CM.After(c.dcache, DataAddrs(S, m))
    requires AllMissed(c, S, s.l2, n, m)
    ensures AllMissed(c, S, DataAccess(c, s, S[m]).caches.l2, n, m + 1)
  {
    hide AllMissed, Cold, DataAccess, ValidCaches, DataAddrs, CM.After;
    if Accesses(c, S[m]) {
      AccessMisses(c, S, s, n, m);
    } else {
      NoAccess(c, S, s, n, m);
    }
  }

  lemma FetchPhaseMisses(c: PipeConfig, S: seq<Inst>, p: Pipe, s: Caches, m: nat)
    requires ValidHierarchy(c.mem) && ValidCaches(c.mem, s) && InStream(p, |S|) && Cold(c.mem, S) && m <= p.next
    requires c.mem.icache.enabled ==> s.ic == CM.After(c.mem.icache, FetchAddrs(S, p.next))
    requires AllMissed(c.mem, S, s.l2, p.next, m)
    ensures TakesNext(c.forwarding, S, p) ==> p.next < |S|
    ensures AllMissed(c.mem, S, FetchPhase(c, S, p, s).caches.l2, if TakesNext(c.forwarding, S, p) then p.next + 1 else p.next, m)
  {
    var n := p.next;
    if TakesNext(c.forwarding, S, p) {
      hide AllMissed, Touched, CM.After, CM.Hits, CM.BlockOf, FetchAddrs, DataAddrs, ValidCaches, CM.Access, NeedsStall;
      if c.mem.icache.enabled {
        FetchIsNew(c.mem.icache, S, n);
        FetchTouches(c.mem, S, n, m);
        NewBlockMisses(c.mem, S, s.l2, n, m, n + 1, m, S[n].pc);
      } else {
        StaysMissed(c.mem, S, s.l2, n, m, n + 1, m);
      }
    }
  }

  lemma ColdStep(c: PipeConfig, S: seq<Inst>, pen: seq<nat>, m: Sim)
    requires |pen| == |S| && ValidSim(c, S, m) && Cold(c.mem, S) && CachesTrack(c, S, m)
    requires AllMissed(c.mem, S, m.caches.l2, m.pipe.next, EnteredMem(m.pipe))
    ensures var q := Step(c, S, pen, m);
            && q.pipe.next <= |S| && EnteredMem(q.pipe) <= |S|
            && AllMissed(c.mem, S, q.caches.l2, q.pipe.next, EnteredMem(q.pipe))
  {
    var p := m.pipe;
    OrderedInStream(p, |S|);
    var d := DataPhase(c, S, p, m.caches);
    DataPhaseMoves(c, S, p, m.caches);
    var after := if p.memStall <= 0 then EnteredEx(p) else EnteredMem(p);
    assert after <= p.next;
    hide Cold, Cycle, TakesNext, CM.After, FetchAddrs, DataAddrs, ValidCaches, AllMissed, DataPhase, FetchPhase;
    DataPhaseMisses(c, S, p, m.caches);
    FetchPhaseMisses(c, S, p, d.caches, after);
    CycleProgress(c.forwarding, S, pen, p, d.cost, FetchPhase(c, S, p, d.caches).cost);
  }

  lemma ColdStart(c: PipeConfig, S: seq<Inst>)
    requires ValidHierarchy(c.mem)
    ensures AllMissed(c.mem, S, ColdCaches(c.mem).l2, 0, 0) && EnteredMem(Start()) == 0 && Start().next == 0
  {
    assert CM.After(c.mem.l2, []) == CM.Init(c.mem.l2);
    assert Explains(c.mem, S, [], 0, 0);
  }

  lemma {:induction false} ColdRun(c: PipeConfig, S: seq<Inst>, pen: seq<nat>, k: nat)
    requires |pen| == |S| && ValidHierarchy(c.mem) && Cold(c.mem, S)
    ensures var m := Run(c, S, pen, k);
            && m.pipe.next <= |S| && EnteredMem(m.pipe) <= |S|
            && AllMissed(c.mem, S, m.caches.l2, m.pipe.next, EnteredMem(m.pipe))
  {
    hide Step, Cold, AllMissed, ValidSim, ValidHierarchy, CachesTrack, ColdCaches, EnteredMem, Start;
    CachesAreTimingFree(c, S, pen, k);
    RunStep(c, S, pen, 1);
    if k == 0 {
      ColdStart(c, S);
    } else {
      ColdRun(c, S, pen, k - 1);
      CachesAreTimingFree(c, S, pen, k - 1);
      assert ValidSim(c, S, Run(c, S, pen, k - 1));
      RunStep(c, S, pen, k);
      ColdStep(c, S, pen, Run(c, S, pen, k - 1));
    }
  }

  // ----- What it costs -----

  lemma WentOn(c: PipeConfig, S: seq<Inst>, pen: seq<nat>, k: nat)
    requires |pen| == |S| && ValidHierarchy(c.mem) && GoesOnUntil(c, S, pen, k)
    ensures NotDoneBefore(c, S, pen, k) && (1 <= k ==> !OverNet(c, S, pen, k - 1))
  {
    hide Run, OverNet, Done, GoesOnUntil;
    forall j | 0 <= j < k ensures !Done(Run(c, S, pen, j).pipe, |S|) {
      GoesOnAt(c, S, pen, k, j);
    }
    if 1 <= k {
      GoesOnAt(c, S, pen, k, k - 1);
    }
  }

  lemma DoneMeter(p: Pipe, pen: seq<nat>)
    requires 0 < |pen| && SmallPenalties(pen) && Metered(p, pen) && Accounted(p, pen) && Done(p, |pen|)
    ensures PenSum(pen, |pen|) <= p.stalls.control + 2 && pen[|pen| - 1] <= 2
  {
  }

  /** A drained run took a cycle an instruction, its penalties and its misses. */
  lemma CyclesCoverCosts(c: PipeConfig, S: seq<Inst>, pen: seq<nat>, k: nat)
    requires |pen| == |S| && 0 < |S| && ValidHierarchy(c.mem) && SmallPenalties(pen)
    requires NotDoneBefore(c, S, pen, k) && Done(Run(c, S, pen, k).pipe, |S|)
    ensures |S| + PenSum(pen, |S|) + MissCost(c.mem, Run(c, S, pen, k).caches) + FreeFetches(c, S, pen, k) <= k
  {
    hide *;
    StallsAreMisses(c, S, pen, k);
    CycleAccounting(c, S, pen, k);
    RunAccounted(c, S, pen, k);
    RunMetered(c, S, pen, k);
    DoneMeter(Run(c, S, pen, k).pipe, pen);
  }

  lemma NetWithin(c: PipeConfig, S: seq<Inst>, pen: seq<nat>, k: nat)
    requires |pen| == |S| && ValidHierarchy(c.mem) && !OverNet(c, S, pen, k)
    ensures k <= Net(c, |S|)
  {
    if k > 0 {
      TimesMonotone(Run(c, S, pen, k - 1).pipe.next + 16, |S| + 16, 20 + c.mem.icache.missPenalty + c.mem.dcache.missPenalty);
    }
  }

  /** A run that retires everything keeps its instructions, penalties and misses within the net, but for its last cycle. */
  lemma RetiresWithinNet(c: PipeConfig, S: seq<Inst>, pen: seq<nat>, k: nat)
    requires |pen| == |S| && 0 < |S| && ValidHierarchy(c.mem) && SmallPenalties(pen)
    requires GoesOnUntil(c, S, pen, k) && Done(Run(c, S, pen, k).pipe, |S|)
    ensures |S| + PenSum(pen, |S|) + MissCost(c.mem, Run(c, S, pen, k).caches) + FreeFetches(c, S, pen, k) <= Net(c, |S|) + 1
  {
    hide *;
    WentOn(c, S, pen, k);
    CyclesCoverCosts(c, S, pen, k);
    if k > 0 {
      NetWithin(c, S, pen, k - 1);
    }
  }

  lemma ColdCost(c: PipeConfig, S: seq<Inst>, m: Sim)
    requires ValidHierarchy(c.mem) && c.mem.l2.enabled && m.pipe.next == |S| == EnteredMem(m.pipe)
    requires AllMissed(c.mem, S, m.caches.l2, m.pipe.next, EnteredMem(m.pipe))
    ensures MissCost(c.mem, m.caches) == Times(Asked(c.mem, S, |S|, |S|), c.mem.l2.missPenalty)
  {
    assert Times(0, c.mem.l2.hitLatency) == 0;
  }

  lemma DoneEntered(p: Pipe, n: nat)
    requires Ordered(p, n) && Done(p, n)
    ensures p.next == n == EnteredMem(p)
  {
  }

  /** Whenever a cold stream costs more than the net allows it, the net cuts it short. */
  lemma ColdCodeIsCutShort(c: PipeConfig, S: seq<Inst>, pen: seq<nat>, k: nat)
    requires |pen| == |S| && 0 < |S| && ValidHierarchy(c.mem) && SmallPenalties(pen) && Cold(c.mem, S)
    requires Net(c, |S|) + 1 < |S| + PenSum(pen, |S|) + Times(Asked(c.mem, S, |S|, |S|), c.mem.l2.missPenalty)
    requires Exits(c, S, pen, k)
    ensures Run(c, S, pen, k).pipe.retired < |S| && OverNet(c, S, pen, k)
  {
    assert c.mem.l2.enabled;
    hide Run, Cold, AllMissed, Asked, MissCost, FreeFetches, Times, GoesOnUntil, OverNet, SmallPenalties, Net;
    var p := Run(c, S, pen, k).pipe;
    assert Ordered(p, |S|);
    if Done(p, |S|) {
      DoneEntered(p, |S|);
      ColdRun(c, S, pen, k);
      ColdCost(c, S, Run(c, S, pen, k));
      RetiresWithinNet(c, S, pen, k);
    }
  }

  // ----- The worst streams -----

  /** A taken jump behind every instruction, a fetch and a data access each time: a call. */
  function CallAt(pc: Word, addr: Word): Inst {
    InstInfo([], false, 0, false, false, true, false, true, pc, 0, true, addr, 1)
  }

  /** n calls whose fetches and stores go through memory in steps of b. */
  function Calls(n: nat, b: nat): (S: seq<Inst>)
    requires 2 * n * b <= 0x1_0000_0000
    ensures |S| == n && forall i :: 0 <= i < n ==> S[i].accessesMem && S[i].isControl && S[i].takenControl
    ensures forall i :: 0 <= i < n ==> S[i].pc == 2 * i * b && S[i].memAddr == (2 * i + 1) * b
  {
    if n == 0 then []
    else
      assert 2 * (n - 1) * b + 2 * b == 2 * n * b && (2 * (n - 1) + 1) * b == 2 * (n - 1) * b + b;
      if b == 0 then Calls(n - 1, b) + [CallAt(0, 0)] else
      Calls(n - 1, b) + [CallAt(2 * (n - 1) * b, (2 * (n - 1) + 1) * b)]
  }

  lemma BlockOfMultiple(c: CM.Config, k: nat, m: nat)
    requires CM.ValidConfig(c)
    ensures CM.BlockOf(c, k * (m * c.blockBytes)) == k * m
  {
    var b := c.blockBytes;
    TimesIsProduct(k * m, b);
    assert k * (m * b) == k * m * b;
    QuotRemUnique(k * m * b, b, k * m, 0);
  }

  lemma ProductsDiffer(i: nat, j: nat, m: nat)
    requires i < j && 1 <= m
    ensures i * m < j * m
  {
  }

  /** Steps that are a multiple of the block size never come back to a block. */
  lemma StepsDiffer(c: CM.Config, n: nat, b: nat, m: nat)
    requires CM.ValidConfig(c) && 1 <= m && b == m * c.blockBytes && 2 * n * b <= 0x1_0000_0000
    ensures PcsDiffer(c, Calls(n, b)) && DataDiffer(c, Calls(n, b)) && Apart(c, Calls(n, b))
  {
    var S := Calls(n, b);
    forall i | 0 <= i < n ensures CM.BlockOf(c, S[i].pc) == 2 * i * m && CM.BlockOf(c, S[i].memAddr) == (2 * i + 1) * m {
      BlockOfMultiple(c, 2 * i, m);
      BlockOfMultiple(c, 2 * i + 1, m);
    }
    hide CM.BlockOf, Calls;
    forall i, j | 0 <= i < j < n ensures CM.BlockOf(c, S[i].pc) != CM.BlockOf(c, S[j].pc)
                                      && CM.BlockOf(c, S[i].memAddr) != CM.BlockOf(c, S[j].memAddr) {
      ProductsDiffer(2 * i, 2 * j, m);
      ProductsDiffer(2 * i + 1, 2 * j + 1, m);
    }
    forall i, j | 0 <= i < n && 0 <= j < n ensures CM.BlockOf(c, S[i].pc) != CM.BlockOf(c, S[j].memAddr) {
      if 2 * i < 2 * j + 1 {
        ProductsDiffer(2 * i, 2 * j + 1, m);
      } else {
        ProductsDiffer(2 * j + 1, 2 * i, m);
      }
    }
  }

  function Step3(c: Hierarchy): nat
    requires ValidHierarchy(c)
  {
    c.icache.blockBytes * c.dcache.blockBytes * c.l2.blockBytes
  }

  /** The net's allowance for an instruction. */
  function PerInst(c: Hierarchy): nat { 20 + c.icache.missPenalty + c.dcache.missPenalty }

  /** So many calls are enough to outrun the net. */
  function Enough(c: Hierarchy): nat { Times(16, PerInst(c)) + 66 }

  /** The address space has that many blocks of every level, twice. */
  predicate Roomy(c: Hierarchy)
    requires ValidHierarchy(c)
  {
    2 * Enough(c) * Step3(c) <= 0x1_0000_0000
  }

  lemma StepFactors(c: Hierarchy)
    requires ValidHierarchy(c)
    ensures var i, d, l := c.icache.blockBytes, c.dcache.blockBytes, c.l2.blockBytes;
            && 1 <= d * l && Step3(c) == (d * l) * i && 1 <= i * l && Step3(c) == (i * l) * d && 1 <= i * d && Step3(c) == (i * d) * l
  {
  }

  /** Calls in steps of all three block sizes are cold. */
  lemma CallsAreCold(c: Hierarchy, n: nat)
    requires ValidHierarchy(c) && c.l2.enabled && 2 * n * Step3(c) <= 0x1_0000_0000
    ensures Cold(c, Calls(n, Step3(c)))
  {
    var i, d, l := c.icache.blockBytes, c.dcache.blockBytes, c.l2.blockBytes;
    StepFactors(c);
    hide Step3, Calls, PcsDiffer, DataDiffer, Apart;
    StepsDiffer(c.icache, n, Step3(c), d * l);
    StepsDiffer(c.dcache, n, Step3(c), i * l);
    StepsDiffer(c.l2, n, Step3(c), i * d);
  }

  lemma {:induction false} AllAccess(S: seq<Inst>, k: nat)
    requires k <= |S| && forall i :: 0 <= i < |S| ==> S[i].accessesMem
    ensures |DataAddrs(S, k)| == k
  {
    if k > 0 {
      AllAccess(S, k - 1);
    }
  }

  lemma {:induction false} AllTwo(pen: seq<nat>, k: nat)
    requires k <= |pen| && forall i :: 0 <= i < |pen| ==> pen[i] == 2
    ensures PenSum(pen, k) == 2 * k
  {
    if k > 0 {
      AllTwo(pen, k - 1);
    }
  }

  const NO_PREDICTOR := PredictorConfig(BP.None, 0, 0)

  /** Without a predictor every taken jump is charged. */
  lemma CallsAreCharged(S: seq<Inst>)
    requires forall i :: 0 <= i < |S| ==> S[i].isControl && S[i].takenControl
    ensures forall i :: 0 <= i < |S| ==> StreamPenalties(NO_PREDICTOR, S)[i] == 2
  {
    var m := InitialPredictor(NO_PREDICTOR);
    assert m.pred.kind == BP.None;
    forall i | 0 <= i < |S| ensures StreamPenalties(NO_PREDICTOR, S)[i] == 2 {
      assert BranchUnit.After(m, S, i).pred.kind == BP.None;
    }
  }

  /** What an instruction may cost at worst, less the three cycles, as the sum over the levels asked. */
  lemma SumOfLevels(n: nat, m: nat, i: bool, d: bool)
    ensures Times((if i then n else 0) + if d then n else 0, m) == Times(n, (if i then m else 0) + if d then m else 0)
  {
    TimesOfNone(n);
    TimesOfNone(m);
    hide Times;
    TimesShift(if i then n else 0, if d then n else 0, m);
    TimesAdds(n, if i then m else 0, if d then m else 0);
  }

  lemma OutrunsNet(n: nat, p: nat, cost: nat)
    requires p + 1 <= 3 + cost && Times(16, p) + 66 <= n
    ensures SafetyNet(n, p) + 1 < 3 * n + Times(n, cost)
  {
    hide Times;
    TimesShift(n, 16, p);
    TimesAdds(n, 3, cost);
    TimesIsProduct(n, 3);
    TimesAdds(n, p + 1, (3 + cost) - (p + 1));
    TimesAdds(n, p, 1);
    TimesIsProduct(n, 1);
  }

  lemma WorstCalls(c: Hierarchy, n: nat)
    requires c.l2.enabled && c.l2.hitLatency <= c.l2.missPenalty && !NetCovers(c) && Enough(c) <= n
    ensures var f, d := if c.icache.enabled then n else 0, if c.dcache.enabled then n else 0;
            SafetyNet(n, PerInst(c)) + 1 < 3 * n + Times(f + d, c.l2.missPenalty)
  {
    var m := c.l2.missPenalty;
    SumOfLevels(n, m, c.icache.enabled, c.dcache.enabled);
    hide Times, SafetyNet;
    OutrunsNet(n, PerInst(c), (if c.icache.enabled then m else 0) + if c.dcache.enabled then m else 0);
  }

  lemma TimesOfNone(n: nat)
    ensures Times(0, n) == 0 && Times(n, 0) == 0
  {
    TimesIsProduct(n, 0);
  }

  // ----- The exact condition -----

  /** Every loop exits sooner or later. */
  lemma FindExit(c: PipeConfig, S: seq<Inst>, pen: seq<nat>, k: nat) returns (e: nat)
    requires |pen| == |S| && ValidHierarchy(c.mem) && GoesOnUntil(c, S, pen, k) && k <= Net(c, |S|) + 1
    ensures Exits(c, S, pen, e)
    decreases Net(c, |S|) + 1 - k
  {
    hide Run, Net;
    if GoesOn(c, S, pen, k) {
      NetWithin(c, S, pen, k);
      e := FindExit(c, S, pen, k + 1);
    } else {
      e := k;
    }
  }

  /** Under every predictor every stream retires in full. */
  ghost predicate AlwaysRetires(c: PipeConfig)
    requires ValidHierarchy(c.mem)
  {
    forall S: seq<Inst>, b: PredictorConfig, k: nat :: 0 < |S| && Exits(c, S, StreamPenalties(b, S), k) ==>
      Done(Run(c, S, StreamPenalties(b, S), k).pipe, |S|)
  }

  lemma CoversRetires(c: PipeConfig)
    requires ValidHierarchy(c.mem) && NetCovers(c.mem)
    ensures AlwaysRetires(c)
  {
    hide Run, Exits, StreamPenalties, NetCovers, ValidHierarchy;
    forall S: seq<Inst>, b: PredictorConfig, k: nat | 0 < |S| && Exits(c, S, StreamPenalties(b, S), k)
      ensures Done(Run(c, S, StreamPenalties(b, S), k).pipe, |S|)
    {
      T.PredictorPenaltiesSmall(b, S);
      ExitsWhenDone(c, S, StreamPenalties(b, S), k);
    }
  }

  /** Every instruction is charged for its jump and accesses memory. */
  ghost predicate AllCalls(S: seq<Inst>) {
    forall i :: 0 <= i < |S| ==> S[i].accessesMem && S[i].isControl && S[i].takenControl
  }

  /** How often calls ask the second level, and what their jumps are charged. */
  lemma CallsMeasure(c: Hierarchy, S: seq<Inst>)
    requires AllCalls(S)
    ensures PenSum(StreamPenalties(NO_PREDICTOR, S), |S|) == 2 * |S|
    ensures Asked(c, S, |S|, |S|) == (if c.icache.enabled then |S| else 0) + if c.dcache.enabled then |S| else 0
  {
    hide StreamPenalties, PenSum, DataAddrs;
    CallsAreCharged(S);
    AllTwo(StreamPenalties(NO_PREDICTOR, S), |S|);
    AllAccess(S, |S|);
  }

  lemma NetOf(c: PipeConfig, n: nat)
    ensures Net(c, n) == SafetyNet(n, PerInst(c.mem))
  {
  }

  /** What enough calls cost, next to the net. */
  lemma CallsCost(c: PipeConfig, S: seq<Inst>)
    requires ValidHierarchy(c.mem) && c.mem.l2.enabled && c.mem.l2.hitLatency <= c.mem.l2.missPenalty && !NetCovers(c.mem)
    requires |S| == Enough(c.mem) && AllCalls(S)
    ensures Net(c, |S|) + 1 < |S| + PenSum(StreamPenalties(NO_PREDICTOR, S), |S|) + Times(Asked(c.mem, S, |S|, |S|), c.mem.l2.missPenalty)
  {
    hide *;
    CallsMeasure(c.mem, S);
    WorstCalls(c.mem, |S|);
    NetOf(c, |S|);
  }

  /** Enough cold calls do not all retire if the net does not cover the costs. */
  lemma ColdCallsAreCut(c: PipeConfig, S: seq<Inst>) returns (k: nat)
    requires ValidHierarchy(c.mem) && c.mem.l2.enabled && c.mem.l2.hitLatency <= c.mem.l2.missPenalty && !NetCovers(c.mem)
    requires |S| == Enough(c.mem) && AllCalls(S) && Cold(c.mem, S)
    ensures 0 < |S| && Exits(c, S, StreamPenalties(NO_PREDICTOR, S), k)
    ensures Run(c, S, StreamPenalties(NO_PREDICTOR, S), k).pipe.retired < |S|
  {
    assert 0 < Enough(c.mem);
    hide Enough, NetCovers, StreamPenalties, Cold, Run, Exits, GoesOn, Net, Asked, PenSum, Times, SmallPenalties, ValidHierarchy,
         AllCalls;
    CallsCost(c, S);
    T.PredictorPenaltiesSmall(NO_PREDICTOR, S);
    k := FindExit(c, S, StreamPenalties(NO_PREDICTOR, S), 0);
    ColdCodeIsCutShort(c, S, StreamPenalties(NO_PREDICTOR, S), k);
  }

  /** The worst calls do not retire if the net does not cover the costs. */
  lemma CallsAreCut(c: PipeConfig) returns (S: seq<Inst>, k: nat)
    requires ValidHierarchy(c.mem) && c.mem.l2.enabled && c.mem.l2.hitLatency <= c.mem.l2.missPenalty
    requires !NetCovers(c.mem) && Roomy(c.mem)
    ensures 0 < |S| && Exits(c, S, StreamPenalties(NO_PREDICTOR, S), k)
    ensures Run(c, S, StreamPenalties(NO_PREDICTOR, S), k).pipe.retired < |S|
  {
    S := Calls(Enough(c.mem), Step3(c.mem));
    hide Enough, Step3, NetCovers, Calls, StreamPenalties, Cold, Run, Exits, ValidHierarchy;
    CallsAreCold(c.mem, Enough(c.mem));
    k := ColdCallsAreCut(c, S);
  }

  /** Behind a second level whose hits cost no more than its misses, every stream retires in full under every predictor exactly
      if the net covers the worst costs and three cycles an instruction. */
  lemma NetCoversIff(c: PipeConfig)
    requires ValidHierarchy(c.mem) && c.mem.l2.enabled && c.mem.l2.hitLatency <= c.mem.l2.missPenalty && Roomy(c.mem)
    ensures NetCovers(c.mem) <==> AlwaysRetires(c)
  {
    hide NetCovers, Roomy, Run, Exits, StreamPenalties;
    if NetCovers(c.mem) {
      CoversRetires(c);
    } else {
      var S, k := CallsAreCut(c);
      assert Exits(c, S, StreamPenalties(NO_PREDICTOR, S), k);
    }
  }
}
