/** The assembler's parser as it runs: a cursor, an error flag that stays up once raised, and a growing statement list. */
module AsmParserUnit {
  import opened Wrappers
  import opened InstStream
  import opened Isa
  import opened AsmLexer
  import P = AsmParser
  import W = Words

  class Parser {
    const toks: seq<Token>
    var i: nat
    var error: bool
    var out: seq<P.Stmt>

    ghost predicate Valid()
      reads this
    {
      i < |toks| && toks[|toks| - 1] == Eof
    }

    ghost function Rest(): seq<Token>
      requires Valid()
      reads this
    {
      toks[i..]
    }

    constructor (toks: seq<Token>)
      requires toks != [] && toks[|toks| - 1] == Eof
      ensures Valid() && this.toks == toks && i == 0 && !error && out == []
    {
      this.toks, i, error, out := toks, 0, false, [];
    }

    /** The step read what the specification reads, or raised the error flag where the specification fails. */
    ghost predicate Read<T>(spec: Option<P.Got<T>>, v: T, failed: bool)
      requires Valid()
      reads this
    {
      (failed ==> error) && match spec
                            case Some(g) => v == g.v && Rest() == g.rest && error == failed
                            case None => error
    }

    method Advance()
      requires Valid() && toks[i] != Eof
      modifies `i
      ensures Valid() && i == old(i) + 1 && Rest() == old(Rest())[1..]
    {
      i := i + 1;
    }

    method Expect(t: Token) returns (ok: bool)
      requires Valid() && t != Eof
      modifies `i, `error
      ensures Valid() && ok == P.Skip(old(Rest()), t).Some?
      ensures if ok then Some(Rest()) == P.Skip(old(Rest()), t) && error == old(error) else error
    {
      ok := toks[i] == t;
      if ok { Advance(); } else { error := true; }
    }

    method ExpectReg() returns (r: Reg)
      requires Valid()
      modifies `i, `error
      ensures Valid() && Read(P.ParseReg(old(Rest())), r, old(error))
    {
      r := 0;
      if toks[i].RegTok? {
        r := toks[i].r;
        Advance();
      } else {
        error := true;
      }
    }

    method Number(neg: bool) returns (v: int)
      requires Valid()
      modifies `i, `error
      ensures Valid() && Read(P.ParseNum(old(Rest()), neg), v, old(error))
    {
      v := 0;
      if toks[i].Num? {
        v := P.ToInt32(if neg then 0 - toks[i].v else toks[i].v);
        Advance();
      } else {
        error := true;
      }
    }

    method ParseSigned() returns (v: int)
      requires Valid()
      modifies `i, `error
      ensures Valid() && Read(P.ParseSigned(old(Rest())), v, old(error))
    {
      var neg := toks[i] == Minus;
      if neg { Advance(); }
      v := Number(neg);
    }

    method ParseImmOrLabel() returns (o: P.Operand)
      requires Valid()
      modifies `i, `error
      ensures Valid() && Read(P.ParseImmOrLabel(old(Rest())), o, old(error))
    {
      if toks[i].Ident? {
        o := P.Operand(0, Some(toks[i].text));
        Advance();
      } else {
        var v := ParseSigned();
        o := P.Operand(v, None);
      }
    }

    method ParseMem() returns (m: P.Mem)
      requires Valid()
      modifies `i, `error
      ensures Valid() && Read(P.ParseMem(old(Rest())), m, old(error))
    {
      m := P.Mem(0, 0);
      var ok := Expect(LBrack);
      if !ok { return; }
      if !toks[i].RegTok? { error := true; return; }
      m := m.(base := toks[i].r);
      Advance();
      if toks[i] == Plus || toks[i] == Minus {
        var neg := toks[i] == Minus;
        Advance();
        if !toks[i].Num? { error := true; return; }
        var v := Number(neg);
        m := m.(off := v);
      }
      ok := Expect(RBrack);
    }

    method Push(s: P.Stmt)
      modifies `out
      ensures out == old(out) + [s]
    {
      out := out + [s];
    }

    /** Operands are read to the end even behind an error; the statement is then dropped. */
    method ParseInstr(op: Opcode)
      requires Valid() && op != Illegal && !error
      modifies `i, `error, `out
      ensures Valid() && Appended(P.ParseOperands(op, old(Rest())), old(out))
    {
      var f, target := Fields(op, 0, 0, 0), None;
      match FormatOf(op) {
        case Bare =>
        case RdRs =>
          var d := ExpectReg();
          var ok := Expect(Comma);
          var s := ExpectReg();
          f := f.(rd := d, rs := s);
        case Rd =>
          var d := ExpectReg();
          f := f.(rd := d);
        case RdImm =>
          var d := ExpectReg();
          var ok := Expect(Comma);
          var v := ParseImmOrLabel();
          f, target := f.(rd := d, imm := v.imm), v.target;
        case RdMem =>
          var d := ExpectReg();
          var ok := Expect(Comma);
          var m := ParseMem();
          f := f.(rd := d, rs := m.base, imm := m.off);
        case MemRs =>
          var m := ParseMem();
          var ok := Expect(Comma);
          var s := ExpectReg();
          f := f.(rd := m.base, rs := s, imm := m.off);
        case Imm =>
          var v := ParseImmOrLabel();
          f, target := f.(imm := v.imm), v.target;
      }
      if !error { Push(P.Instr(f, target)); }
    }

    ghost predicate Appended(spec: Option<P.Got<P.Stmt>>, before: seq<P.Stmt>)
      requires Valid()
      reads this
    {
      match spec
      case Some(g) => !error && out == before + [g.v] && Rest() == g.rest
      case None => error
    }

    method ParseDirective(name: string)
      requires Valid() && !error
      modifies `i, `error, `out
      ensures Valid() && Appended(P.ParseDirective(name, old(Rest())), old(out))
    {
      if P.SameWord(name, "org") {
        var v := ParseSigned();
        if !error { Push(P.Org(W.Wrap(v))); }
      } else if P.SameWord(name, "word") {
        var v := ParseImmOrLabel();
        Push(P.Data(W.Wrap(v.imm), v.target));
      } else {
        error := true;
      }
    }

    method ParseNamed(name: string)
      requires Valid() && !error
      modifies `i, `error, `out
      ensures Valid() && Appended(P.ParseNamed(name, old(Rest())), old(out))
    {
      if toks[i] == Colon {
        Push(P.Label(name));
        Advance();
        return;
      }
      var op := FindMnemonic(name);
      if op.None? { error := true; return; }
      ParseInstr(op.value);
    }

    method FindMnemonic(name: string) returns (op: Option<Opcode>)
      ensures op == P.FindMnemonic(name)
    {
      for k := 0 to |P.MNEMONICS|
        invariant P.FindFrom(name, k) == P.FindMnemonic(name)
      {
        if P.SameWord(name, OpcodeName(P.MNEMONICS[k])) { return Some(P.MNEMONICS[k]); }
      }
      op := None;
    }

    method ParseStmt()
      requires Valid() && !error && toks[i] != Eof && toks[i] != Newline
      modifies `i, `error, `out
      ensures Valid() && Appended(P.ParseStmt(old(Rest())), old(out))
    {
      var t := toks[i];
      if t.Directive? {
        Advance();
        ParseDirective(t.text);
      } else if t.Ident? {
        Advance();
        ParseNamed(t.text);
      } else {
        error := true;
      }
    }

    method Parse() returns (r: Option<seq<P.Stmt>>)
      requires Valid() && i == 0 && !error && out == []
      modifies this
      ensures Valid() && r == P.Parse(toks)
    {
      hide P.ParseStmt;
      assert toks[0..] == toks;
      DoneNothing(P.ParseStmts(toks));
      while toks[i] != Eof && !error
        invariant Valid()
        invariant if error then P.ParseStmts(toks).None? else Done(out, P.ParseStmts(Rest())) == P.ParseStmts(toks)
        decreases if error then 0 else |toks| - i
      {
        ghost var before, was := Rest(), out;
        if toks[i] == Newline {
          Advance();
        } else {
          ParseStmt();
          DoneOne(was, before);
          assert !error ==> |Rest()| < |before|;
        }
      }
      assert out + [] == out;
      r := if error || out == [] then None else Some(out);
    }
  }

  ghost function Done(v: seq<P.Stmt>, r: Option<seq<P.Stmt>>): Option<seq<P.Stmt>> {
    if r.None? then None else Some(v + r.value)
  }

  lemma DoneNothing(r: Option<seq<P.Stmt>>)
    ensures Done([], r) == r
  {
    if r.Some? {
      assert [] + r.value == r.value;
    }
  }

  lemma DoneOne(v: seq<P.Stmt>, toks: seq<Token>)
    requires P.Next(toks) != Eof && P.Next(toks) != Newline
    ensures match P.ParseStmt(toks)
            case Some(s) => Done(v, P.ParseStmts(toks)) == Done(v + [s.v], P.ParseStmts(s.rest))
            case None => P.ParseStmts(toks) == None
  {
    hide P.ParseStmt;
    var s := P.ParseStmt(toks);
    if s.Some? && P.ParseStmts(s.value.rest).Some? {
      var rest := P.ParseStmts(s.value.rest).value;
      assert v + ([s.value.v] + rest) == (v + [s.value.v]) + rest;
    }
  }
}
