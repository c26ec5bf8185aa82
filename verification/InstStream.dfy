/** The decoded instruction stream that drives all three timing models. */
module InstStream {

  const NUM_REGS := 8
  const FLAG_REG := 8
  const CONTROL_PENALTY := 2

  /** A scoreboard slot: one of the eight registers, or the flags as a ninth. */
  type Slot = r: int | 0 <= r <= FLAG_REG
  type Word = w: int | 0 <= w < 0x1_0000_0000
  type Reg = r: int | 0 <= r < NUM_REGS

  datatype Opcode =
    | NOP | HALT
    | ADD | SUB | MUL | DIV
    | AND | OR | XOR | NOT | SHL | SHR
    | MOV | LOAD | STORE | LOADI | PUSH | POP
    | JMP | JZ | JNZ | JG | JL | CALL | RET
    | IN | OUT
    | Illegal

  datatype InstInfo = InstInfo(
    sources: seq<Slot>,
    hasWrite: bool, writeReg: Reg,
    isLoad: bool, setsFlags: bool,
    isControl: bool, isConditional: bool, takenControl: bool,
    pc: Word, target: Word,
    accessesMem: bool, memAddr: Word,
    latency: int)

  /** What decoding guarantees of an instruction and the timing models rely on. */
  predicate ValidInfo(d: InstInfo) {
    && 1 <= d.latency
    && |d.sources| <= 3
    && (d.isLoad ==> d.hasWrite && !d.setsFlags)
    && (d.isConditional ==> d.isControl)
  }

  type Inst = d: InstInfo | ValidInfo(d)
    witness InstInfo([], false, 0, false, false, false, false, false, 0, 0, false, 0, 1)

  const BLANK: Inst := InstInfo([], false, 0, false, false, false, false, false, 0, 0, false, 0, 1)

  function OpLatency(op: Opcode): int {
    match op
    case DIV => 20
    case MUL => 3
    case LOAD | POP => 2
    case _ => 1
  }

  predicate IsConditional(op: Opcode) {
    op in {JZ, JNZ, JG, JL}
  }

  predicate IsControl(op: Opcode) {
    IsConditional(op) || op in {JMP, CALL, RET}
  }

  predicate SetsFlags(op: Opcode) {
    op in {ADD, SUB, MUL, DIV, AND, OR, XOR, NOT, SHL, SHR}
  }

  /** The functional outcome of one executed instruction: what the reference CPU reports about it. */
  datatype Outcome = Outcome(pc: Word, nextPc: Word, memAddr: Word)

  /** Metadata of an executed instruction with register fields rd and rs. */
  function DecodeMeta(op: Opcode, rd: Reg, rs: Reg, o: Outcome): (d: InstInfo)
    ensures ValidInfo(d)
    ensures FLAG_REG in d.sources <==> d.isConditional
    ensures d.isLoad <==> op in {LOAD, POP}
    ensures d.hasWrite ==> d.writeReg == rd
    ensures d.isControl <==> IsControl(op)
    ensures d.pc == o.pc && d.target == o.nextPc && (d.takenControl <==> o.nextPc != (o.pc + 4) % 0x1_0000_0000)
  {
    var base := InstInfo([], false, 0, false, SetsFlags(op), IsControl(op), IsConditional(op),
                         o.nextPc != (o.pc + 4) % 0x1_0000_0000, o.pc, o.nextPc,
                         op in {LOAD, STORE, PUSH, CALL, POP, RET}, o.memAddr, OpLatency(op));
    match op
    case ADD | SUB | MUL | DIV | AND | OR | XOR | SHL | SHR =>
      base.(sources := [rd, rs], hasWrite := true, writeReg := rd)
    case NOT =>
      base.(sources := [rd], hasWrite := true, writeReg := rd)
    case MOV =>
      base.(sources := [rs], hasWrite := true, writeReg := rd)
    case LOAD =>
      base.(sources := [rs], hasWrite := true, writeReg := rd, isLoad := true)
    case STORE =>
      base.(sources := [rd, rs])
    case LOADI | IN =>
      base.(hasWrite := true, writeReg := rd)
    case PUSH | OUT =>
      base.(sources := [rd])
    case POP =>
      base.(hasWrite := true, writeReg := rd, isLoad := true)
    case JZ | JNZ | JG | JL =>
      base.(sources := [FLAG_REG])
    case NOP | HALT | JMP | CALL | RET | Illegal =>
      base
  }

  /** Whether p writes the scoreboard slot s. */
  predicate Produces(p: Inst, s: Slot) {
    || (p.hasWrite && p.writeReg == s)
    || (p.setsFlags && s == FLAG_REG)
  }

  /** A control instruction consults the predictor; so does anything else that redirected fetch. */
  predicate Redirects(d: Inst) {
    d.isControl || d.takenControl
  }

  /** Whether instruction j reads a slot that instruction i writes, with no writer in between. */
  ghost predicate RawEdge(S: seq<Inst>, i: int, j: int, s: Slot) {
    && 0 <= i < j < |S|
    && s in S[j].sources
    && Produces(S[i], s)
    && forall k :: i < k < j ==> !Produces(S[k], s)
  }

  /** j consumes a result of i: a true dependence. */
  ghost predicate Depends(S: seq<Inst>, i: int, j: int) {
    exists s: Slot :: RawEdge(S, i, j, s)
  }

  /** A fetch penalty for every instruction, in program order; only redirecting ones are charged. */
  ghost predicate Penalties(S: seq<Inst>, pen: seq<nat>) {
    && |pen| == |S|
    && forall i :: 0 <= i < |S| ==> pen[i] in {0, CONTROL_PENALTY} && (!Redirects(S[i]) ==> pen[i] == 0)
  }
}
