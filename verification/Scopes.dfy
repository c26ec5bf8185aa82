/** What a name means in a function, read off its parameters and declarations: the first parameter of that name, else its
    first declaration in the body, else the global; in the code and in the evaluation alike. */
module Scopes {
  import opened Words
  import opened Wrappers
  import opened CAst
  import opened CSemantics
  import opened Layout
  import opened M = Machine
  import CG = CodeGen

  // ----- Where names live -----

  /** The i-th parameter, and no earlier one, is called x. */
  predicate IsParameter(f: Func, i: nat, x: string) {
    i < |f.params| && f.params[i] == x && forall j :: 0 <= j < i ==> f.params[j] != x
  }

  /** The k-th declaration of the body declares x, no earlier one does, and no parameter is called so. */
  predicate IsLocal(f: Func, k: nat, x: string) {
    && k < |Decls(f.body)| && Decls(f.body)[k].x == x
    && (forall j :: 0 <= j < k ==> Decls(f.body)[j].x != x)
    && x !in f.params
  }

  predicate IsFree(f: Func, x: string) { x !in f.params && forall d :: d in Decls(f.body) ==> d.x != x }

  /** The bytes the first k declarations take: four each, or four for each element of an array, and none for a name that is
      already declared. */
  function Taken(f: Func, k: nat): nat
    requires k <= |Decls(f.body)|
  {
    if k == 0 then 0
    else
      var d := Decls(f.body)[k - 1];
      Taken(f, k - 1) + if IsLocal(f, k - 1, d.x) then (if d.size.Some? then 4 * d.size.value else 4) else 0
  }

  /** The offset of a local from the frame pointer: right below what was declared before. */
  function SlotOffset(f: Func, k: nat): int
    requires k < |Decls(f.body)|
  {
    0 - Taken(f, k + 1)
  }

  // ----- The symbol table agrees -----

  lemma {:induction false} FoundByName(sym: seq<Symbol>, x: string)
    ensures SymFind(sym, x).Some? <==> exists i :: 0 <= i < |sym| && sym[i].name == x
  {
    if sym != [] {
      FoundByName(sym[1..], x);
      assert (exists i :: 0 <= i < |sym| && sym[i].name == x)
        <==> sym[0].name == x || exists i :: 0 <= i < |sym[1..]| && sym[1..][i].name == x by {
        if i :| 0 <= i < |sym| && sym[i].name == x {
          assert i > 0 ==> sym[1..][i - 1].name == x;
        }
        if i :| 0 <= i < |sym[1..]| && sym[1..][i].name == x {
          assert sym[i + 1].name == x;
        }
      }
    }
  }

  lemma NoParameter(f: Func, x: string)
    ensures SymFind(ParamTable(f).sym, x).None? <==> x !in f.params
  {
    FoundByName(ParamSymbols(f.params), x);
    if x in f.params {
      var i :| 0 <= i < |f.params| && f.params[i] == x;
      assert ParamSymbols(f.params)[i].name == x;
    }
  }

  lemma LocalIsFirst(f: Func, k: nat, x: string)
    requires IsLocal(f, k, x)
    ensures First(ParamTable(f), Decls(f.body), k)
  {
    NoParameter(f, x);
  }

  lemma {:induction false} TakenBytes(f: Func, k: nat)
    requires k <= |Decls(f.body)|
    ensures DeclareAll(ParamTable(f), Decls(f.body)[..k]).bytes == Taken(f, k)
  {
    var t, ds := ParamTable(f), Decls(f.body);
    if k > 0 {
      TakenBytes(f, k - 1);
      assert ds[..k][..k - 1] == ds[..k - 1];
      var d := ds[k - 1];
      NoParameter(f, d.x);
      if IsLocal(f, k - 1, d.x) {
        NewSlot(t, ds, k - 1);
      } else {
        AlreadyThere(f, k - 1);
      }
      hide SymFind, DeclareAll, IsLocal;
    }
  }

  /** A declaration of a known name finds it. */
  lemma AlreadyThere(f: Func, k: nat)
    requires k < |Decls(f.body)| && !IsLocal(f, k, Decls(f.body)[k].x)
    ensures SymFind(DeclareAll(ParamTable(f), Decls(f.body)[..k]).sym, Decls(f.body)[k].x).Some?
  {
    var t, ds := ParamTable(f), Decls(f.body);
    var x := ds[k].x;
    NoParameter(f, x);
    if x in f.params {
      SlotsStay(t, ds[..k], x);
    } else {
      var j :| 0 <= j < k && ds[j].x == x;
      DeclaredHasSlot(t, ds[..k], j);
    }
  }

  lemma LocalSlot(f: Func, k: nat, x: string)
    requires IsLocal(f, k, x)
    ensures SymFind(TableOf(f).sym, x) == Some(Symbol(x, SlotOffset(f, k), Decls(f.body)[k].size.Some?))
  {
    LocalIsFirst(f, k, x);
    CollectIsFold(f.body, ParamTable(f));
    SlotOf(ParamTable(f), Decls(f.body), k);
    TakenBytes(f, k + 1);
  }

  lemma FreeHasNone(f: Func, x: string)
    requires IsFree(f, x)
    ensures SymFind(TableOf(f).sym, x).None?
  {
    NoParameter(f, x);
    CollectIsFold(f.body, ParamTable(f));
    Undeclared(ParamTable(f), Decls(f.body), x);
  }

  /** Every name is a parameter, a local or free, and only one of them. */
  lemma EveryNameIsOne(f: Func, x: string) returns (i: nat)
    ensures x in f.params ==> IsParameter(f, i, x)
    ensures x !in f.params && !IsFree(f, x) ==> IsLocal(f, i, x)
  {
    i := 0;
    if x in f.params {
      while f.params[i] != x
        invariant i < |f.params| && forall j :: 0 <= j < i ==> f.params[j] != x
        decreases |f.params| - i
      {
        i := i + 1;
      }
    } else if !IsFree(f, x) {
      var ds := Decls(f.body);
      while ds[i].x != x
        invariant i < |ds| && forall j :: 0 <= j < i ==> ds[j].x != x
        decreases |ds| - i
      {
        i := i + 1;
      }
    }
  }

  // ----- In the code -----

  /** The g-th global, and no earlier one, is called x. */
  predicate IsGlobal(p: Program, g: nat, x: string) {
    g < |p.globals| && p.globals[g].name == x && forall j :: 0 <= j < g ==> p.globals[j].name != x
  }

  predicate NoGlobal(p: Program, x: string) { forall g :: g in p.globals ==> g.name != x }

  lemma {:induction false} GlobalFound(globs: seq<Global>, g: nat)
    requires g < |globs| && forall j :: 0 <= j < g ==> globs[j].name != globs[g].name
    ensures GlobFind(globs, globs[g].name) == Some(globs[g])
  {
    if g > 0 {
      GlobalFound(globs[1..], g - 1);
    }
  }

  lemma {:induction false} GlobalMissing(globs: seq<Global>, x: string)
    requires forall g :: g in globs ==> g.name != x
    ensures GlobFind(globs, x).None?
  {
    if globs != [] {
      GlobalMissing(globs[1..], x);
    }
  }

  /** The code for the address at an offset from R6. */
  function AddressCode(off: int): seq<Line> {
    if off == 0 then [Op(Mov(0, 6))] else [Op(Mov(0, 6)), Op(LoadI(1, off)), Op(Alu(ADD, 0, 1))]
  }

  lemma AddressIs(off: int)
    ensures CG.FrameAddress(off) == AddressCode(off)
  {
  }

  function Emits(code: seq<Line>, n: nat): CG.Gen { Ok(CG.Frag(code, n)) }

  function ThenStores(r: CG.Gen, code: seq<Line>): CG.Gen {
    if r.Err? then r else Ok(CG.Frag(r.value.code + code, r.value.next))
  }

  /** Parameter i is loaded from R6 + 4 + 4i and stored there, whatever the globals and the declarations are called. */
  lemma ParameterCode(p: Program, f: Func, i: nat, x: string, e: Expr, n: nat)
    requires IsParameter(f, i, x)
    ensures CG.GenExpr(CG.EnvOf(p, f), Var(x), n) == Emits([Op(Load(0, 6, 4 + 4 * i))], n)
    ensures CG.GenAddr(CG.EnvOf(p, f), Var(x), n) == Emits(AddressCode(4 + 4 * i), n)
    ensures CG.GenExpr(CG.EnvOf(p, f), Assign(Var(x), e), n)
         == ThenStores(CG.GenExpr(CG.EnvOf(p, f), e, n), [Op(Store(6, 4 + 4 * i, 0))])
  {
    ParameterSlot(f, i);
    AddressIs(4 + 4 * i);
  }

  /** A local scalar is loaded from its slot and stored there; a local array stands for its address, and cannot be assigned. */
  lemma LocalCode(p: Program, f: Func, k: nat, x: string, e: Expr, n: nat)
    requires IsLocal(f, k, x)
    ensures var off := SlotOffset(f, k); var env := CG.EnvOf(p, f);
            && CG.GenAddr(env, Var(x), n) == Emits(AddressCode(off), n)
            && (if Decls(f.body)[k].size.None? then
                  && CG.GenExpr(env, Var(x), n) == Emits([Op(Load(0, 6, off))], n)
                  && CG.GenExpr(env, Assign(Var(x), e), n) == ThenStores(CG.GenExpr(env, e, n), [Op(Store(6, off, 0))])
                else
                  && CG.GenExpr(env, Var(x), n) == Emits(AddressCode(off), n)
                  && CG.GenExpr(env, Assign(Var(x), e), n) == Err(CG.AssignToArray))
  {
    LocalSlot(f, k, x);
    AddressIs(SlotOffset(f, k));
    hide SlotOffset;
  }

  /** Only what is neither a parameter nor declared reaches the global of that name. */
  lemma GlobalCode(p: Program, f: Func, g: nat, x: string, e: Expr, n: nat)
    requires IsFree(f, x) && IsGlobal(p, g, x)
    ensures var env := CG.EnvOf(p, f);
            && CG.GenAddr(env, Var(x), n) == Emits([Op(LoadA(0, x))], n)
            && (if p.globals[g].size.None? then
                  && CG.GenExpr(env, Var(x), n) == Emits([Op(LoadA(0, x)), Op(Load(0, 0, 0))], n)
                  && CG.GenExpr(env, Assign(Var(x), e), n)
                     == ThenStores(CG.GenExpr(env, e, n), [Op(LoadA(1, x)), Op(Store(1, 0, 0))])
                else
                  && CG.GenExpr(env, Var(x), n) == Emits([Op(LoadA(0, x))], n)
                  && CG.GenExpr(env, Assign(Var(x), e), n) == Err(CG.AssignToArray))
  {
    FreeHasNone(f, x);
    GlobalFound(p.globals, g);
  }

  lemma UndefinedCode(p: Program, f: Func, x: string, e: Expr, n: nat)
    requires IsFree(f, x) && NoGlobal(p, x)
    ensures var env := CG.EnvOf(p, f);
            && CG.GenExpr(env, Var(x), n) == CG.GenAddr(env, Var(x), n) == Err(CG.UndefinedVariable(x))
            && CG.GenExpr(env, Assign(Var(x), e), n) == Err(CG.UndefinedVariable(x))
  {
    FreeHasNone(f, x);
    GlobalMissing(p.globals, x);
  }

  /** The initialiser of a declaration is stored where the name lives: in its own slot, or in the parameter of that name. */
  lemma DeclarationCode(p: Program, f: Func, k: nat, x: string, size: Option<nat>, e: Expr, n: nat)
    requires IsLocal(f, k, x) || IsParameter(f, k, x)
    ensures var off := if IsLocal(f, k, x) then SlotOffset(f, k) else 4 + 4 * k; var env := CG.EnvOf(p, f);
            CG.GenStmt(env, VarDecl(x, size, Some(e)), n) == ThenStores(CG.GenExpr(env, e, n), [Op(Store(6, off, 0))])
  {
    if IsLocal(f, k, x) {
      LocalSlot(f, k, x);
    } else {
      ParameterSlot(f, k);
    }
    hide SlotOffset, CG.GenExpr;
  }

  // ----- In the evaluation -----

  /** The value of a scalar that lives in the cell at a. */
  function CellValue(s: State, a: int): Option<Res> {
    if a in s.mem then Some(Res(W(s.mem[a]), s)) else None
  }

  /** Assigning to the cell at a, after the right-hand side. */
  function CellAssigned(fr: Frame, v: Option<WordRes>, a: int): Option<Res> {
    if v.Some? && a in fr.cells then Some(Res(W(v.value.w), v.value.s.(mem := v.value.s.mem[a := v.value.w]))) else None
  }

  lemma ParameterMeans(w: World, fr: Frame, f: Func, i: nat, x: string, e: Expr, s: State, fuel: nat)
    requires IsParameter(f, i, x) && fr.sym == TableOf(f).sym && 2 <= fuel
    ensures var a := Wrap(fr.fp + 4 + 4 * i);
            && Eval(w, fr, Var(x), s, fuel) == CellValue(s, a)
            && Eval(w, fr, Assign(Var(x), e), s, fuel) == CellAssigned(fr, EvalWord(w, fr, e, s, fuel - 2), a)
  {
    ParameterSlot(f, i);
    hide EvalWord, Wrap;
  }

  lemma LocalMeans(w: World, fr: Frame, f: Func, k: nat, x: string, e: Expr, s: State, fuel: nat)
    requires IsLocal(f, k, x) && fr.sym == TableOf(f).sym && 2 <= fuel
    ensures var a := Wrap(fr.fp + SlotOffset(f, k));
            if Decls(f.body)[k].size.Some? then Eval(w, fr, Var(x), s, fuel) == Some(Res(W(a), s))
            else && Eval(w, fr, Var(x), s, fuel) == CellValue(s, a)
                 && Eval(w, fr, Assign(Var(x), e), s, fuel) == CellAssigned(fr, EvalWord(w, fr, e, s, fuel - 2), a)
  {
    LocalSlot(f, k, x);
    hide EvalWord, Wrap, SlotOffset;
  }

  lemma GlobalMeans(w: World, fr: Frame, f: Func, g: nat, x: string, e: Expr, s: State, fuel: nat)
    requires IsFree(f, x) && IsGlobal(w.prog, g, x) && fr.sym == TableOf(f).sym && 2 <= fuel && x in w.addr
    ensures var a := w.addr[x];
            if w.prog.globals[g].size.Some? then Eval(w, fr, Var(x), s, fuel) == Some(Res(W(a), s))
            else && Eval(w, fr, Var(x), s, fuel) == CellValue(s, a)
                 && Eval(w, fr, Assign(Var(x), e), s, fuel) == CellAssigned(fr, EvalWord(w, fr, e, s, fuel - 2), a)
  {
    FreeHasNone(f, x);
    GlobalFound(w.prog.globals, g);
    hide EvalWord;
  }

  lemma DeclarationMeans(w: World, fr: Frame, f: Func, k: nat, x: string, size: Option<nat>, e: Expr, s: State, fuel: nat)
    requires (IsLocal(f, k, x) || IsParameter(f, k, x)) && fr.sym == TableOf(f).sym && 1 <= fuel
    ensures var a := Wrap(fr.fp + if IsLocal(f, k, x) then SlotOffset(f, k) else 4 + 4 * k);
            ExecStmt(w, fr, VarDecl(x, size, Some(e)), s, fuel)
            == match CellAssigned(fr, EvalWord(w, fr, e, s, fuel - 1), a)
               case None => None
               case Some(r) => Some(Normal(r.s))
  {
    if IsLocal(f, k, x) {
      LocalSlot(f, k, x);
    } else {
      ParameterSlot(f, k);
    }
    hide SlotOffset, EvalWord, Wrap;
  }

  // ----- Calls -----

  /** A function that returns its i-th parameter yields the i-th argument, whatever the globals are called. */
  lemma ReturnsArgument(w: World, fr: Frame, f: Func, i: nat, x: string, vals: seq<Word>, s: State, fuel: nat)
    requires IsParameter(f, i, x) && f.body == Return(Some(Var(x))) && |vals| == |f.params| && 6 <= fuel
    requires var c := Callee(fr, f, |vals|); w.limit <= c.sp && c.waiting <= w.words && 0 <= c.fp && fr.sp <= TWO32 && fr.sp % 4 == 0
    ensures Activate(w, fr, f, vals, s, fuel).Some? && Activate(w, fr, f, vals, s, fuel).value.v == W(vals[i])
  {
    var c := Callee(fr, f, |vals|);
    var a := c.fp + 4 + 4 * i;
    var s' := s.(mem := s.mem + Bound(c.fp, vals));
    WrapIdentity(a);
    ArgumentBound(c.fp, vals, i);
    ParameterMeans(w, c, f, i, x, Int(0), s', fuel - 3);
    hide Eval, Wrap, Bound;
    assert EvalOptional(w, c, Some(Var(x)), s', fuel - 2) == Some(Res(W(vals[i]), s'));
    assert ExecStmt(w, c, f.body, s', fuel - 1) == Some(Returned(W(vals[i]), s'));
  }

  lemma ArgumentBound(fp: int, vals: seq<Word>, i: nat)
    requires i < |vals| && fp % 4 == 0
    ensures var a := fp + 4 + 4 * i; a in Bound(fp, vals) && Bound(fp, vals)[a] == vals[i]
  {
  }
}
