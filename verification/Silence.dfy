/** Silent runs, which the timing models use: one is the run without input, its output dropped. */
module Silence {
  import opened Words
  import opened Wrappers
  import opened Isa
  import opened WordCpu
  import I = InstStream
  import M = Machine

  /** The same CPU with nothing to read, writing what it writes. */
  function Aloud(c: Cpu): Cpu { c.(silent := false, input := []) }

  /** d, but for what c has read and written. */
  function Muted(d: Cpu, c: Cpu): Cpu { d.(silent := true, input := c.input, out := c.out) }

  ghost predicate Pair(c: Cpu, d: Cpu) { c.silent && !d.silent && d.input == [] && c == Muted(d, c) }

  ghost predicate SameEnd(c: Cpu, r: Option<Cpu>, s: Option<Cpu>) {
    && (r.Some? <==> s.Some?)
    && (r.Some? ==> Pair(r.value, s.value) && r.value.input == c.input && r.value.out == c.out)
  }

  lemma AccessPair(c: Cpu, d: Cpu, r: I.Reg, a: Word, w: Word)
    requires Pair(c, d)
    ensures SameEnd(c, LoadFrom(c, r, a), LoadFrom(d, r, a))
    ensures SameEnd(c, StoreTo(c, a, w), StoreTo(d, a, w))
    ensures SameEnd(c, PushWord(c, w), PushWord(d, w))
  {
    hide Read, Write, Wrap;
  }

  lemma AluPair(c: Cpu, d: Cpu, op: M.AluOp, x: I.Reg, y: I.Reg)
    requires Pair(c, d)
    ensures SameEnd(c, ExecAlu(op, x, y, c), ExecAlu(op, x, y, d))
  {
    hide M.AluResult, M.AluFlags;
  }

  lemma AluCase(f: Fields, c: Cpu, d: Cpu)
    requires Pair(c, d) && IsAlu(f.op)
    ensures SameEnd(c, Execute(f, c), Execute(f, d))
  {
    AluPair(c, d, AluOpOf(f.op), f.rd, f.rs);
    hide ExecAlu, AluOpOf;
  }

  lemma LoadPair(f: Fields, c: Cpu, d: Cpu)
    requires Pair(c, d) && f.op == I.LOAD
    ensures SameEnd(c, Execute(f, c), Execute(f, d))
  {
    AccessPair(c, d, f.rd, Wrap(c.regs[f.rs] + f.imm), 0);
    hide Wrap, LoadFrom, StoreTo, PushWord;
  }

  lemma StorePair(f: Fields, c: Cpu, d: Cpu)
    requires Pair(c, d) && f.op == I.STORE
    ensures SameEnd(c, Execute(f, c), Execute(f, d))
  {
    AccessPair(c, d, f.rd, Wrap(c.regs[f.rd] + f.imm), c.regs[f.rs]);
    hide Wrap, LoadFrom, StoreTo, PushWord;
  }

  lemma PushPair(f: Fields, c: Cpu, d: Cpu)
    requires Pair(c, d) && f.op == I.PUSH
    ensures SameEnd(c, Execute(f, c), Execute(f, d))
  {
    AccessPair(c, d, f.rd, 0, c.regs[f.rd]);
    hide Wrap, LoadFrom, StoreTo, PushWord;
  }

  lemma CallPair(f: Fields, c: Cpu, d: Cpu)
    requires Pair(c, d) && f.op == I.CALL
    ensures SameEnd(c, Execute(f, c), Execute(f, d))
  {
    AccessPair(c, d, f.rd, 0, c.pc);
    hide Wrap, LoadFrom, StoreTo, PushWord;
  }

  lemma MemoryPair(f: Fields, c: Cpu, d: Cpu)
    requires Pair(c, d) && f.op in {I.LOAD, I.STORE, I.PUSH, I.CALL}
    ensures SameEnd(c, Execute(f, c), Execute(f, d))
  {
    hide Execute, SameEnd, Pair;
    match f.op
    case LOAD => LoadPair(f, c, d);
    case STORE => StorePair(f, c, d);
    case PUSH => PushPair(f, c, d);
    case CALL => CallPair(f, c, d);
  }

  lemma OtherPair(f: Fields, c: Cpu, d: Cpu)
    requires Pair(c, d) && !IsAlu(f.op) && f.op !in {I.LOAD, I.STORE, I.PUSH, I.CALL}
    ensures SameEnd(c, Execute(f, c), Execute(f, d))
  {
    hide Read, Wrap, Not, Negative, M.Holds, InBounds;
  }

  lemma ExecutePair(f: Fields, c: Cpu, d: Cpu)
    requires Pair(c, d)
    ensures SameEnd(c, Execute(f, c), Execute(f, d))
  {
    hide Execute, SameEnd, Pair;
    if IsAlu(f.op) {
      AluCase(f, c, d);
    } else if f.op in {I.LOAD, I.STORE, I.PUSH, I.CALL} {
      MemoryPair(f, c, d);
    } else {
      OtherPair(f, c, d);
    }
  }

  lemma StepPair(c: Cpu, d: Cpu)
    requires Pair(c, d)
    ensures SameEnd(c, Step(c), Step(d))
  {
    hide Execute, Read, Decode, Wrap;
    if InBounds(c.pc) {
      ExecutePair(Fetch(c), c.(pc := NextPc(c.pc)), d.(pc := NextPc(d.pc)));
    }
  }

  lemma {:induction false} StepsPair(c: Cpu, d: Cpu, k: nat)
    requires Pair(c, d)
    ensures SameEnd(c, Steps(c, k), Steps(d, k))
    decreases k
  {
    hide Step;
    if k > 0 && !c.halted {
      StepPair(c, d);
      if Step(c).Some? {
        StepsPair(Step(c).value, Step(d).value, k - 1);
      }
    }
  }

  /** A silent run takes the steps of the run without input, and leaves the input and the output as they were. */
  lemma SilentRun(c: Cpu, e: Cpu, k: nat)
    requires c.silent
    ensures RunsTo(c, e, k) <==> exists d :: RunsTo(Aloud(c), d, k) && e == Muted(d, c)
  {
    StepsPair(c, Aloud(c), k);
    hide Steps;
    if RunsTo(c, e, k) {
      var d := Steps(Aloud(c), k).value;
      assert RunsTo(Aloud(c), d, k) && e == Muted(d, c);
    }
  }
}
