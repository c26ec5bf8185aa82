/** The superscalar and out-of-order models as run: one pass over the generated instructions. */
module IssueModels {
  import opened Arith
  import opened InstStream
  import opened Generator
  import opened Scoreboard
  import opened OutOfOrder
  import opened FrontEnd

  /** The loop over an instruction's operands. */
  method LatestNeed(ready: array<int>, slots: seq<Slot>, base: int, lead: int) returns (at: int)
    requires ready.Length == FLAG_REG + 1
    ensures at == Latest(ready[..], slots, base, lead)
  {
    at := base;
    for r := 0 to |slots|
      invariant at == Latest(ready[..], slots[..r], base, lead)
    {
      var need := ready[slots[r]] - lead;
      if need > at { at := need; }
      assert slots[..r + 1][..r] == slots[..r];
    }
    assert slots[..|slots|] == slots;
  }

  // ----- In-order superscalar -----

  class IssueState {
    const ready: array<int>
    var curIf: int
    var curCount: int
    var fetchBlock: int
    var lastIf: int
    ghost var state: State

    ghost predicate Valid()
      reads this, ready
    {
      ready.Length == FLAG_REG + 1 && state == State(curIf, curCount, ready[..], fetchBlock, lastIf)
    }

    constructor ()
      ensures Valid() && fresh(ready) && state == Init()
    {
      ready := new int[FLAG_REG + 1](_ => 0);
      curIf, curCount, fetchBlock, lastIf := 0, 0, 0, 0;
      state := Init();
      new;
      assert ready[..] == Zeros();
    }

    /** Records when the instruction's results can be used. */
    method PublishResults(cfg: Config, d: Inst, iff: int)
      requires Valid()
      modifies ready
      ensures ready[..] == Publish(old(ready[..]), d, iff + ResultDelay(cfg, d), iff + if cfg.forwarding then 3 else 5)
    {
      if d.hasWrite {
        ready[d.writeReg] := if cfg.forwarding then (if d.isLoad then iff + 4 else iff + 3) else iff + 5;
      }
      if d.setsFlags {
        ready[FLAG_REG] := if cfg.forwarding then iff + 3 else iff + 5;
      }
    }

    /** Assigns the instruction its fetch cycle; a penalty holds back the next one. */
    method Issue(cfg: Config, i: nat, d: Inst, penalty: nat)
      requires Valid()
      modifies this, ready
      ensures Valid() && state == Step(cfg, old(state), i, d, penalty)
    {
      hide Publish, Latest;
      var earliest := if i == 0 then 1 else if curCount < cfg.width then curIf else curIf + 1;
      if earliest < fetchBlock { earliest := fetchBlock; }
      var iff := LatestNeed(ready, d.sources, earliest, 2);
      assert iff == Scoreboard.Issue(cfg, state, i, d);
      PublishResults(cfg, d, iff);
      if iff == curIf && curCount < cfg.width {
        curCount := curCount + 1;
      } else {
        curIf, curCount := iff, 1;
      }
      if penalty > 0 { fetchBlock := iff + 1 + penalty; }
      lastIf := iff;
      state := Step(cfg, state, i, d, penalty);
    }
  }

  /** In-order superscalar timing of the program the CPU runs from c. */
  method PipeRunSs<C>(exec: C -> Executed<C>, c: C, limit: nat, cfg: Config, b: PredictorConfig)
    returns (cycles: int, report: Report<C>)
    requires ValidConfig(cfg) && 1 <= limit
    ensures var S := Stream(exec, c, limit); cycles == Cycles(cfg, S, StreamPenalties(b, S))
    ensures report == ReportOf(exec, c, limit, b)
  {
    var f := new Front(exec, c, limit, b);
    var x := new IssueState();
    IssueAll(f, x, cfg);
    report := f.Summary();
    cycles := if report.instructions > 0 then x.lastIf + 4 else 0;
  }

  /** Issues every instruction of the program. */
  method IssueAll<C>(f: Front<C>, x: IssueState, cfg: Config)
    requires f.Ready() && f.generated == f.charged == 0
    requires x.Valid() && x.state == Init() && f.Repr !! {x, x.ready}
    modifies f.Repr, x, x.ready
    ensures f.Ready() && f.generated == f.charged == |f.S|
    ensures x.Valid() && x.state == Run(cfg, f.S, f.pen, |f.S|)
  {
    hide Step;
    var i := 0;
    while true
      invariant i <= |f.S| && f.Ready() && f.generated == f.charged == i
      invariant x.Valid() && x.state == Run(cfg, f.S, f.pen, i)
      decreases |f.S| - i
    {
      var ok, d, penalty := f.Next(i);
      if !ok { return; }
      x.Issue(cfg, i, d, penalty);
      i := i + 1;
    }
  }

  // ----- Out of order -----

  class OooState {
    const cfg: OooConfig
    const ready: array<int>
    const rob: array<int>
    var dispCycle: int
    var dispCount: int
    var comCycle: int
    var comCount: int
    var fetchBlock: int
    var lastExec: int
    var lastCommit: int
    ghost var state: Ooo

    ghost predicate Valid()
      reads this, ready, rob
    {
      && ValidOoo(cfg) && ready != rob && ready.Length == FLAG_REG + 1 && rob.Length == cfg.robSize
      && state == Ooo(Lane(dispCycle, dispCount), Lane(comCycle, comCount), ready[..], rob[..],
                      fetchBlock, lastExec, lastCommit)
    }

    constructor (cfg: OooConfig)
      requires ValidOoo(cfg)
      ensures Valid() && fresh(ready) && fresh(rob) && this.cfg == cfg && state == OooInit(cfg)
    {
      this.cfg := cfg;
      ready := new int[FLAG_REG + 1](_ => 0);
      rob := new int[cfg.robSize](_ => 0);
      dispCycle, dispCount, comCycle, comCount := 1, 0, 1, 0;
      fetchBlock, lastExec, lastCommit := 0, 0, 0;
      state := OooInit(cfg);
      new;
      assert ready[..] == Zeros() && rob[..] == OooInit(cfg).rob;
    }

    /** In-order dispatch, gated by width, redirects and a free reorder-buffer slot. */
    method DispatchOne(i: nat) returns (disp: int)
      requires Valid()
      modifies this`dispCycle, this`dispCount, this`state
      ensures Valid() && disp == Dispatch(cfg, old(state), i)
      ensures state == old(state).(disp := Occupy(old(state).disp, cfg.width, disp))
    {
      disp := if dispCount < cfg.width then dispCycle else dispCycle + 1;
      if disp < fetchBlock { disp := fetchBlock; }
      if i >= cfg.robSize {
        var slotFree := rob[i % cfg.robSize] + 1;
        if disp < slotFree { disp := slotFree; }
      }
      if disp == dispCycle && dispCount < cfg.width { dispCount := dispCount + 1; }
      else { dispCycle, dispCount := disp, 1; }
      state := state.(disp := Lane(dispCycle, dispCount));
    }

    /** Execution once the operands are there, or after the previous instruction's when in order. */
    method ExecuteOne(d: Inst, disp: int) returns (complete: int)
      requires Valid()
      modifies this`lastExec, this`state, ready
      ensures Valid() && var exec := Execute(cfg, old(state), disp, d);
              complete == exec + d.latency
              && state == old(state).(lastExec := exec, ready := Publish(old(state).ready, d, complete, complete))
    {
      var exec := LatestNeed(ready, d.sources, disp, 0);
      if cfg.inOrder && exec < lastExec { exec := lastExec; }
      lastExec := exec;
      complete := exec + d.latency;
      if d.hasWrite { ready[d.writeReg] := complete; }
      if d.setsFlags { ready[FLAG_REG] := complete; }
      state := state.(lastExec := exec, ready := ready[..]);
    }

    /** In-order commit, after completion. */
    method CommitOne(i: nat, complete: int)
      requires Valid()
      modifies this`comCycle, this`comCount, this`lastCommit, this`state, rob
      ensures Valid()
      ensures var s := old(state);
              var commit := Max(NextFree(s.com, cfg.width), complete);
              state == s.(com := Occupy(s.com, cfg.width, commit), lastCommit := commit,
                          rob := s.rob[i % cfg.robSize := commit])
    {
      var commit := if comCount < cfg.width then comCycle else comCycle + 1;
      if commit < complete { commit := complete; }
      if commit == comCycle && comCount < cfg.width { comCount := comCount + 1; }
      else { comCycle, comCount := commit, 1; }
      rob[i % cfg.robSize] := commit;
      lastCommit := commit;
      state := state.(com := Lane(comCycle, comCount), lastCommit := commit, rob := rob[..]);
    }

    method Issue(i: nat, d: Inst, penalty: nat)
      requires Valid()
      modifies this, ready, rob
      ensures Valid() && state == OooStep(cfg, old(state), i, d, penalty)
    {
      var disp := DispatchOne(i);
      var complete := ExecuteOne(d, disp);
      CommitOne(i, complete);
      if penalty > 0 {
        fetchBlock := lastExec + penalty;
        state := state.(fetchBlock := fetchBlock);
      }
    }
  }

  /** Out-of-order timing of the program the CPU runs from c. */
  method PipeRunOoo<C>(exec: C -> Executed<C>, c: C, limit: nat, cfg: OooConfig, b: PredictorConfig)
    returns (cycles: int, report: Report<C>)
    requires ValidOoo(cfg) && 1 <= limit
    ensures var S := Stream(exec, c, limit); cycles == OooCycles(cfg, S, StreamPenalties(b, S))
    ensures report == ReportOf(exec, c, limit, b)
  {
    var f := new Front(exec, c, limit, b);
    var x := new OooState(cfg);
    ScheduleAll(f, x);
    report := f.Summary();
    cycles := if report.instructions > 0 then x.lastCommit else 0;
  }

  /** Schedules every instruction of the program. */
  method ScheduleAll<C>(f: Front<C>, x: OooState)
    requires f.Ready() && f.generated == f.charged == 0
    requires x.Valid() && x.state == OooInit(x.cfg) && f.Repr !! {x, x.ready, x.rob}
    modifies f.Repr, x, x.ready, x.rob
    ensures f.Ready() && f.generated == f.charged == |f.S|
    ensures x.Valid() && x.state == OooRun(x.cfg, f.S, f.pen, |f.S|)
  {
    hide OooStep;
    var i := 0;
    while true
      invariant i <= |f.S| && f.Ready() && f.generated == f.charged == i
      invariant x.Valid() && x.state == OooRun(x.cfg, f.S, f.pen, i)
      decreases |f.S| - i
    {
      var ok, d, penalty := f.Next(i);
      if !ok { return; }
      x.Issue(i, d, penalty);
      i := i + 1;
    }
  }
}
