/** The reference CPU in place: registers, flags and memory bytes updated instruction by instruction. */
module Cpu {
  import opened Words
  import opened Wrappers
  import opened C = WordCpu
  import Isa
  import I = InstStream
  import M = Machine
  import E = AsmEncoder

  class CPU {
    const regs: array<Word>
    const mem: array<E.Byte>
    const silent: bool
    var pc: Word
    var sp: Word
    var z: bool
    var c: bool
    var o: bool
    var n: bool
    var input: seq<Word>
    var out: seq<Output>
    var halted: bool

    ghost predicate Valid() {
      regs.Length == I.NUM_REGS && mem.Length == MEM_SIZE && regs as object != mem as object
    }

    function State(): C.Cpu
      requires regs.Length == I.NUM_REGS && mem.Length == MEM_SIZE
      reads this, regs, mem
    {
      C.Cpu(regs[..], pc, sp, M.Flags(z, c, o, n), mem[..], silent, input, out, halted)
    }

    /** What an access outside the memory leaves open, and anything else settles. */
    ghost predicate Did(ok: bool, r: Option<C.Cpu>)
      requires Valid()
      reads this, regs, mem
    {
      ok == r.Some? && (ok ==> State() == r.value)
    }

    /** cpu_init, on a memory that holds an image. */
    constructor (image: Memory, quiet: bool, numbers: seq<Word>)
      ensures Valid() && fresh(regs) && fresh(mem) && State() == Reset(image, quiet, numbers)
    {
      var r := new Word[I.NUM_REGS](_ => 0);
      var b := new E.Byte[MEM_SIZE](i requires 0 <= i < MEM_SIZE => image[i]);
      regs, mem, silent := r, b, quiet;
      pc, sp := 0, MEM_SIZE;
      z, c, o, n := false, false, false, false;
      input, out, halted := numbers, [], false;
      new;
      assert mem[..] == image;
    }

    method SetZN(r: Word)
      modifies `z, `n
      ensures z == (r == 0) && n == Negative(r)
    {
      z := r == 0;
      n := Negative(r);
    }

    // ----- Arithmetic -----

    /** exec_add: carry out of bit 31, overflow when equal signs give a different one. */
    method ExecAdd(d: I.Reg, s: I.Reg)
      requires Valid()
      modifies regs, `z, `c, `o, `n
      ensures Some(State()) == C.ExecAlu(M.ADD, d, s, old(State()))
    {
      var a: int, b: int := regs[d], regs[s];
      var wide := a + b;
      var r := Wrap(wide);
      regs[d] := r;
      c := TWO32 <= wide;
      o := Negative(a) == Negative(b) && Negative(a) != Negative(r);
      SetZN(r);
    }

    /** exec_sub: borrow, and overflow when different signs give the wrong one. */
    method ExecSub(d: I.Reg, s: I.Reg)
      requires Valid()
      modifies regs, `z, `c, `o, `n
      ensures Some(State()) == C.ExecAlu(M.SUB, d, s, old(State()))
    {
      var a: int, b: int := regs[d], regs[s];
      var r := Wrap(a - b);
      regs[d] := r;
      c := a < b;
      o := Negative(a) != Negative(b) && Negative(a) != Negative(r);
      SetZN(r);
    }

    method ExecLogic(op: M.AluOp, d: I.Reg, s: I.Reg) returns (ok: bool)
      requires Valid() && op != M.ADD && op != M.SUB
      modifies regs, `z, `n, `halted
      ensures Did(ok, C.ExecAlu(op, d, s, old(State())))
    {
      hide Mul, Div, And, Or, Xor, Shl, Shr;
      if op == M.DIV && regs[s] == 0 {
        halted := true;
        return true;
      }
      if M.IsShift(op) && 32 <= regs[s] { return false; }
      var r := M.AluResult(op, regs[d], regs[s]);
      regs[d] := r;
      SetZN(r);
      ok := true;
    }

    method Arithmetic(op: M.AluOp, d: I.Reg, s: I.Reg) returns (ok: bool)
      requires Valid()
      modifies regs, `z, `c, `o, `n, `halted
      ensures Did(ok, C.ExecAlu(op, d, s, old(State())))
    {
      hide M.AluResult, M.AluFlags;
      if op == M.ADD {
        ExecAdd(d, s);
        ok := true;
      } else if op == M.SUB {
        ExecSub(d, s);
        ok := true;
      } else {
        ok := ExecLogic(op, d, s);
      }
    }

    // ----- Memory and devices -----

    /** mem_read32: least significant byte first. */
    method ReadWord(a: Word) returns (w: Word)
      requires Valid() && InBounds(a)
      ensures w == Read(State().mem, a)
    {
      var b0: int, b1: int, b2: int, b3: int := mem[a], mem[a + 1], mem[a + 2], mem[a + 3];
      w := b0 + b1 * 0x100 + b2 * 0x1_0000 + b3 * 0x100_0000;
    }

    /** mem_write32. */
    method WriteWord(a: Word, w: Word)
      requires Valid() && InBounds(a)
      modifies mem
      ensures State() == old(State()).(mem := Write(old(State()).mem, a, w))
    {
      mem[a] := E.ByteOf(w, 0);
      mem[a + 1] := E.ByteOf(w, 1);
      mem[a + 2] := E.ByteOf(w, 2);
      mem[a + 3] := E.ByteOf(w, 3);
    }

    /** The next input number, or 0. */
    method ReadInput() returns (w: Word)
      requires Valid()
      modifies `input
      ensures w == NextInput(old(State())) && State() == Consume(old(State()))
    {
      w := 0;
      if !silent && input != [] {
        w := input[0];
        input := input[1..];
      }
    }

    method Print(x: Output)
      requires Valid()
      modifies `out
      ensures State() == Emit(old(State()), x)
    {
      if !silent { out := out + [x]; }
    }

    method Load(d: I.Reg, a: Word) returns (ok: bool)
      requires Valid()
      modifies regs, `input
      ensures Did(ok, LoadFrom(old(State()), d, a))
    {
      hide Read;
      if IsDevice(a) {
        var w := 0;
        if a == MMIO_IN { w := ReadInput(); }
        regs[d] := w;
        ok := true;
      } else if InBounds(a) {
        regs[d] := ReadWord(a);
        ok := true;
      } else {
        ok := false;
      }
    }

    method Store(a: Word, w: Word) returns (ok: bool)
      requires Valid()
      modifies mem, `out, `halted
      ensures Did(ok, StoreTo(old(State()), a, w))
    {
      hide Write;
      ok := true;
      if IsDevice(a) {
        if a == MMIO_OUT {
          Print(Number(w));
        } else if a == MMIO_OUTC {
          Print(Character(w % 0x100));
        } else if a == MMIO_HALT {
          halted := true;
        }
      } else if InBounds(a) {
        WriteWord(a, w);
      } else {
        ok := false;
      }
    }

    method Push(w: Word) returns (ok: bool)
      requires Valid()
      modifies mem, `sp
      ensures Did(ok, PushWord(old(State()), w))
    {
      hide Write;
      var top := Wrap(sp - 4);
      ok := InBounds(top);
      if ok {
        sp := top;
        WriteWord(top, w);
      }
    }

    // ----- Instructions -----

    /** NOT, MOV, LOADI and IN. */
    method Move(f: Isa.Fields)
      requires Valid() && f.op in {I.NOT, I.MOV, I.LOADI, I.IN}
      modifies regs, `z, `n, `input
      ensures Did(true, C.Execute(f, old(State())))
    {
      hide Wrap, Not;
      if f.op == I.NOT {
        regs[f.rd] := Not(regs[f.rd]);
        SetZN(regs[f.rd]);
      } else if f.op == I.MOV {
        regs[f.rd] := regs[f.rs];
      } else if f.op == I.LOADI {
        regs[f.rd] := Wrap(f.imm);
      } else {
        var w := ReadInput();
        regs[f.rd] := w;
      }
    }

    method Memory(f: Isa.Fields) returns (ok: bool)
      requires Valid() && f.op in {I.LOAD, I.STORE, I.PUSH, I.POP}
      modifies regs, mem, `input, `out, `halted, `sp
      ensures Did(ok, C.Execute(f, old(State())))
    {
      hide Wrap, Read, LoadFrom, StoreTo, PushWord;
      if f.op == I.LOAD {
        ok := Load(f.rd, Wrap(regs[f.rs] + f.imm));
      } else if f.op == I.STORE {
        ok := Store(Wrap(regs[f.rd] + f.imm), regs[f.rs]);
      } else if f.op == I.PUSH {
        ok := Push(regs[f.rd]);
      } else {
        ok := Pop(f);
      }
    }

    method Pop(f: Isa.Fields) returns (ok: bool)
      requires Valid() && f.op == I.POP
      modifies regs, `sp
      ensures Did(ok, C.Execute(f, old(State())))
    {
      hide Wrap, Read;
      ok := InBounds(sp);
      if ok {
        regs[f.rd] := ReadWord(sp);
        sp := Wrap(sp + 4);
      }
    }

    /** Jumps, calls and returns. */
    method Transfer(f: Isa.Fields) returns (ok: bool)
      requires Valid() && (IsConditionalJump(f.op) || f.op in {I.JMP, I.CALL, I.RET})
      modifies mem, `pc, `sp
      ensures Did(ok, C.Execute(f, old(State())))
    {
      hide Wrap, Read, PushWord, CondOf;
      ok := true;
      if IsConditionalJump(f.op) {
        if M.Holds(CondOf(f.op), M.Flags(z, c, o, n)) { pc := Wrap(f.imm); }
      } else if f.op == I.JMP {
        pc := Wrap(f.imm);
      } else if f.op == I.CALL {
        ok := Push(pc);
        if ok { pc := Wrap(f.imm); }
      } else {
        ok := InBounds(sp);
        if ok {
          pc := ReadWord(sp);
          sp := Wrap(sp + 4);
        }
      }
    }

    /** NOP, OUT, HALT and anything illegal. */
    method Rest(f: Isa.Fields)
      requires Valid() && !IsAlu(f.op) && !IsConditionalJump(f.op)
      requires f.op !in {I.NOT, I.MOV, I.LOADI, I.IN, I.LOAD, I.STORE, I.PUSH, I.POP, I.JMP, I.CALL, I.RET}
      modifies `out, `halted
      ensures Did(true, C.Execute(f, old(State())))
    {
      if f.op == I.OUT {
        Print(Number(regs[f.rd]));
      } else if f.op != I.NOP {
        halted := true;
      }
    }

    method Execute(f: Isa.Fields) returns (ok: bool)
      requires Valid()
      modifies this, regs, mem
      ensures Did(ok, C.Execute(f, old(State())))
    {
      hide C.ExecAlu;
      if IsAlu(f.op) {
        ok := Arithmetic(AluOpOf(f.op), f.rd, f.rs);
      } else {
        hide C.Execute;
        ok := true;
        if f.op in {I.NOT, I.MOV, I.LOADI, I.IN} {
          Move(f);
        } else if f.op in {I.LOAD, I.STORE, I.PUSH, I.POP} {
          ok := Memory(f);
        } else if IsConditionalJump(f.op) || f.op in {I.JMP, I.CALL, I.RET} {
          ok := Transfer(f);
        } else {
          Rest(f);
        }
      }
    }

    /** cpu_step: fetch, decode, advance, execute. */
    method Step() returns (ok: bool)
      requires Valid()
      modifies this, regs, mem
      ensures Did(ok, C.Step(old(State())))
    {
      hide C.Execute, Read, Isa.Decode;
      ok := InBounds(pc);
      if ok {
        var raw := ReadWord(pc);
        pc := NextPc(pc);
        ok := Execute(Isa.Decode(raw));
      }
    }

    /** cpu_run, for a program that halts after k steps. */
    method Run(ghost k: nat)
      requires Valid() && Steps(State(), k).Some? && Steps(State(), k).value.halted
      modifies this, regs, mem
      ensures Some(State()) == Steps(old(State()), k)
    {
      hide C.Step;
      ghost var left: nat := k;
      while !halted
        invariant Valid() && left <= k && Steps(State(), left) == Steps(old(State()), k)
        decreases left
      {
        var ok := Step();
        left := left - 1;
      }
      assert left == 0;
    }
  }
}
