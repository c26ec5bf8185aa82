/** The instruction generator on the reference CPU: fetch, decode, record and step, and what this makes of the timing results. */
module Oracle {
  import opened Wrappers
  import opened InstStream
  import opened Generator
  import opened FrontEnd
  import opened Pipeline
  import opened MemoryHierarchy
  import opened PipelineSim
  import Isa
  import W = Words
  import C = WordCpu
  import Cpu
  import T = TimingClaims

  /** The simulated CPU, or None once the process has ended on an access outside the memory. */
  type Host = Option<C.Cpu>

  /** One call of the generator. */
  function Exec(h: Host): (r: Executed<Host>)
    ensures h.Some? && !h.value.halted && r.halted ==> !Redirects(r.info)
  {
    if h.None? || C.Step(h.value).None? then Executed(BLANK, None, true)
    else
      var next := C.Step(h.value).value;
      assert !h.value.halted && next.halted ==> !Redirects(C.Record(h.value, next)) by {
        if !h.value.halted && next.halted { C.HaltFallsThrough(h.value); }
      }
      Executed(C.Record(h.value, next), Some(next), next.halted)
  }

  /** The data address of the instruction about to be executed, if it has one. */
  method AddressOf(cpu: Cpu.CPU, f: Isa.Fields) returns (a: Word)
    requires cpu.Valid()
    ensures a == C.MemAddr(f, cpu.State())
  {
    hide W.Wrap;
    match f.op {
      case LOAD => a := W.Wrap(cpu.regs[f.rs] + f.imm);
      case STORE => a := W.Wrap(cpu.regs[f.rd] + f.imm);
      case PUSH | CALL => a := W.Wrap(cpu.sp - 4);
      case POP | RET => a := cpu.sp;
      case _ => a := 0;
    }
  }

  /** The generator's turn in place: decode, note the address, step, and note where fetch goes next. */
  method GenOne(cpu: Cpu.CPU) returns (d: Inst, alive: bool)
    requires cpu.Valid()
    modifies cpu, cpu.regs, cpu.mem
    ensures alive == C.Step(old(cpu.State())).Some?
    ensures alive ==> Exec(Some(old(cpu.State()))) == Executed(d, Some(cpu.State()), cpu.halted)
  {
    hide C.Execute, C.Read, Isa.Decode, C.MemAddr;
    d, alive := BLANK, C.InBounds(cpu.pc);
    if alive {
      var pc := cpu.pc;
      var raw := cpu.ReadWord(pc);
      var f := Isa.Decode(raw);
      var a := AddressOf(cpu, f);
      alive := cpu.Step();
      if alive { d := DecodeMeta(f.op, f.rd, f.rs, Outcome(pc, cpu.pc, a)); }
    }
  }

  /** While the CPU runs, the generator's CPU is the one of cpu_run. */
  lemma {:induction false} FollowsCpuRun(c: C.Cpu, k: nat)
    requires C.Steps(c, k).Some?
    ensures CpuAfter(Exec, Some(c), k) == C.Steps(c, k)
  {
    hide C.Step;
    if k > 0 {
      C.StepsLast(c, k);
      FollowsCpuRun(c, k - 1);
    }
  }

  lemma {:induction false} RunsBefore(c: C.Cpu, n: nat, k: nat)
    requires k <= n && C.Steps(c, n).Some?
    ensures C.Steps(c, k).Some? && (k < n ==> !C.Steps(c, k).value.halted)
    decreases n
  {
    hide C.Step;
    if k < n {
      C.StepsLast(c, n);
      RunsBefore(c, n - 1, k);
    }
  }

  lemma StepRecorded(c: C.Cpu, k: nat)
    requires 1 <= k && C.Steps(c, k).Some?
    ensures C.Steps(c, k - 1).Some? && !C.Steps(c, k - 1).value.halted
    ensures var e := Exec(C.Steps(c, k - 1)); e.next == C.Steps(c, k) && (e.halted <==> C.Steps(c, k).value.halted)
  {
    hide C.Step;
    C.StepsLast(c, k);
  }

  /** What the generator records at step k of a run that halts after n. */
  lemma RecordsRun(c: C.Cpu, d: C.Cpu, n: nat, k: nat)
    requires C.RunsTo(c, d, n) && k < n
    ensures var e := Exec(CpuAfter(Exec, Some(c), k));
            (e.halted <==> k + 1 == n) && e.next == C.Steps(c, k + 1)
            && CpuAfter(Exec, Some(c), k) == C.Steps(c, k) && C.Steps(c, k).Some? && !C.Steps(c, k).value.halted
  {
    hide C.Step, C.Steps, CpuAfter, Exec;
    RunsBefore(c, n, k + 1);
    StepRecorded(c, k + 1);
    FollowsCpuRun(c, k);
  }

  lemma RunEnds(c: C.Cpu, d: C.Cpu, n: nat)
    requires C.RunsTo(c, d, n)
    ensures C.Steps(c, n) == Some(d)
  {
  }

  /** A program that halts within the limit is generated to its halt and no further, and leaves the CPU as cpu_run does. */
  lemma GeneratesTheRun(c: C.Cpu, d: C.Cpu, n: nat, limit: nat)
    requires C.RunsTo(c, d, n) && 1 <= n <= limit
    ensures |Stream(Exec, Some(c), limit)| == n && CpuAfter(Exec, Some(c), n) == Some(d)
  {
    hide *;
    RunEnds(c, d, n);
    FollowsCpuRun(c, n);
    var len := |Stream(Exec, Some(c), limit)|;
    if len < n {
      RecordsRun(c, d, n, len - 1);
      StreamIsCpuRun(Exec, Some(c), limit, len - 1);
    } else if n < len {
      RecordsRun(c, d, n, n - 1);
      StreamIsCpuRun(Exec, Some(c), limit, n - 1);
    }
  }

  lemma LastRecord(c: C.Cpu, d: C.Cpu, n: nat, limit: nat)
    requires C.RunsTo(c, d, n) && 1 <= n <= limit
    ensures |Stream(Exec, Some(c), limit)| == n && !Redirects(Stream(Exec, Some(c), limit)[n - 1])
  {
    hide *;
    GeneratesTheRun(c, d, n, limit);
    RecordsRun(c, d, n, n - 1);
    StreamIsCpuRun(Exec, Some(c), limit, n - 1);
  }

  /** The last instruction of a program that halts is charged no fetch penalty, whatever the predictor. */
  lemma NoFinalPenalty(c: C.Cpu, d: C.Cpu, n: nat, limit: nat, b: PredictorConfig)
    requires C.RunsTo(c, d, n) && 1 <= n <= limit
    ensures var S := Stream(Exec, Some(c), limit); |S| == n && StreamPenalties(b, S)[n - 1] == 0
  {
    LastRecord(c, d, n, limit);
    hide Stream, C.Steps, C.RunsTo, StreamPenalties, Redirects;
    assert Penalties(Stream(Exec, Some(c), limit), StreamPenalties(b, Stream(Exec, Some(c), limit)));
  }

  /** The accounts of a stream whose last instruction is charged nothing. */
  lemma ExitCycles(cfg: PipeConfig, S: seq<Inst>, pen: seq<nat>, k: nat)
    requires 0 < |S| == |pen| && ValidHierarchy(cfg.mem) && NetCovers(cfg.mem) && SmallPenalties(pen) && pen[|S| - 1] == 0
    requires Exits(cfg, S, pen, k)
    ensures var p := Run(cfg, S, pen, k).pipe;
            p.retired == p.next == |S| && k == |S| + 4 + p.stalls.data + p.stalls.control + p.stalls.memory
  {
    hide *;
    EveryInstructionRetires(cfg, S, pen, k);
    ExitsWhenDone(cfg, S, pen, k);
    CycleAccounting(cfg, S, pen, k);
  }

  /** For every program that halts, with any predictor and any caches the safety net covers: the pipeline exits with all its
      instructions retired and the CPU as a silent cpu_run leaves it, after one cycle an instruction, four to fill, and the
      three kinds of stall; nothing is left over. */
  lemma HaltingProgramCycles(c: C.Cpu, d: C.Cpu, n: nat, limit: nat, cfg: PipeConfig, b: PredictorConfig, S: seq<Inst>, k: nat)
    requires ValidHierarchy(cfg.mem) && NetCovers(cfg.mem) && Exits(cfg, S, StreamPenalties(b, S), k)
    requires C.RunsTo(c, d, n) && 1 <= n <= limit && S == Stream(Exec, Some(c), limit)
    ensures var p := Run(cfg, S, StreamPenalties(b, S), k).pipe;
            && p.retired == p.next == n && CpuAfter(Exec, Some(c), p.next) == Some(d)
            && k == n + 4 + p.stalls.data + p.stalls.control + p.stalls.memory
  {
    hide *;
    GeneratesTheRun(c, d, n, limit);
    NoFinalPenalty(c, d, n, limit, b);
    T.PredictorPenaltiesSmall(b, S);
    ExitCycles(cfg, S, StreamPenalties(b, S), k);
  }
}
