/** Where `collect` puts locals: one slot per name, slots disjoint and inside the frame. */
module Layout {
  import opened Wrappers
  import opened CAst

  datatype Decl = Decl(x: string, size: Option<nat>)

  /** A statement's declarations in the order the code generator meets them. */
  function Decls(s: Stmt): seq<Decl>
    decreases s, 1
  {
    match s
    case Block(_) => BlockDecls(s, 0)
    case VarDecl(x, size, _) => [Decl(x, size)]
    case If(_, a, b) => Decls(a) + (if b.Some? then Decls(b.value) else [])
    case While(_, b) => Decls(b)
    case For(a, _, _, b) => (if a.Some? then Decls(a.value) else []) + Decls(b)
    case _ => []
  }

  function BlockDecls(s: Stmt, k: nat): seq<Decl>
    requires s.Block? && k <= |s.ss|
    decreases s, 0, |s.ss| - k
  {
    if k == |s.ss| then [] else Decls(s.ss[k]) + BlockDecls(s, k + 1)
  }

  function DeclareAll(t: Table, ds: seq<Decl>): Table {
    if ds == [] then t else Declare(DeclareAll(t, ds[..|ds| - 1]), ds[|ds| - 1].x, ds[|ds| - 1].size)
  }

  lemma {:induction false} DeclareAllAdds(t: Table, a: seq<Decl>, b: seq<Decl>)
    ensures DeclareAll(t, a + b) == DeclareAll(DeclareAll(t, a), b)
  {
    if b == [] {
      assert a + b == a;
    } else {
      assert (a + b)[..|a + b| - 1] == a + b[..|b| - 1];
      DeclareAllAdds(t, a, b[..|b| - 1]);
    }
  }

  /** Walking the tree declares exactly the flattened list. */
  lemma {:induction false} CollectIsFold(s: Stmt, t: Table)
    ensures Collect(s, t) == DeclareAll(t, Decls(s))
    decreases s, 1
  {
    match s
    case Block(_) => BlockIsFold(s, 0, t);
    case VarDecl(x, size, _) => assert [Decl(x, size)][..0] == [];
    case If(_, a, b) =>
      CollectIsFold(a, t);
      if b.Some? {
        CollectIsFold(b.value, Collect(a, t));
        DeclareAllAdds(t, Decls(a), Decls(b.value));
      } else {
        assert Decls(a) + [] == Decls(a);
      }
    case While(_, b) => CollectIsFold(b, t);
    case For(a, _, _, b) =>
      if a.Some? {
        CollectIsFold(a.value, t);
        CollectIsFold(b, Collect(a.value, t));
        DeclareAllAdds(t, Decls(a.value), Decls(b));
      } else {
        CollectIsFold(b, t);
        assert [] + Decls(b) == Decls(b);
      }
    case _ =>
  }

  lemma {:induction false} BlockIsFold(s: Stmt, k: nat, t: Table)
    requires s.Block? && k <= |s.ss|
    ensures CollectBlock(s, k, t) == DeclareAll(t, BlockDecls(s, k))
    decreases s, 0, |s.ss| - k
  {
    if k < |s.ss| {
      CollectIsFold(s.ss[k], t);
      BlockIsFold(s, k + 1, Collect(s.ss[k], t));
      DeclareAllAdds(t, Decls(s.ss[k]), BlockDecls(s, k + 1));
    }
  }

  // ----- Slots -----

  lemma {:induction false} FindAppended(sym: seq<Symbol>, y: Symbol, x: string)
    ensures SymFind(sym + [y], x) == if SymFind(sym, x).Some? then SymFind(sym, x) else if y.name == x then Some(y) else None
  {
    if sym == [] {
      assert sym + [y] == [y] && [y][1..] == [];
    } else {
      assert (sym + [y])[1..] == sym[1..] + [y];
      FindAppended(sym[1..], y, x);
    }
  }

  /** Declaring more never moves a name or shrinks the frame. */
  lemma {:induction false} SlotsStay(t: Table, ds: seq<Decl>, x: string)
    ensures SymFind(t.sym, x).Some? ==> SymFind(DeclareAll(t, ds).sym, x) == SymFind(t.sym, x)
    ensures t.bytes <= DeclareAll(t, ds).bytes
  {
    hide SymFind, Bytes;
    if ds != [] {
      var d := ds[|ds| - 1];
      var u := DeclareAll(t, ds[..|ds| - 1]);
      SlotsStay(t, ds[..|ds| - 1], x);
      FindAppended(u.sym, Symbol(d.x, -(u.bytes + Bytes(d.size)), d.size.Some?), x);
    }
  }

  /** ds[k] is the declaration that gives its name a slot. */
  predicate First(t: Table, ds: seq<Decl>, k: nat)
    requires k < |ds|
  {
    SymFind(t.sym, ds[k].x).None? && forall j :: 0 <= j < k ==> ds[j].x != ds[k].x
  }

  lemma {:induction false} Undeclared(t: Table, ds: seq<Decl>, x: string)
    requires SymFind(t.sym, x).None? && forall d :: d in ds ==> d.x != x
    ensures SymFind(DeclareAll(t, ds).sym, x).None?
  {
    if ds != [] {
      var d := ds[|ds| - 1];
      var u := DeclareAll(t, ds[..|ds| - 1]);
      Undeclared(t, ds[..|ds| - 1], x);
      FindAppended(u.sym, Symbol(d.x, -(u.bytes + Bytes(d.size)), d.size.Some?), x);
    }
  }

  lemma NewSlot(t: Table, ds: seq<Decl>, k: nat)
    requires k < |ds| && First(t, ds, k)
    ensures var u := DeclareAll(t, ds[..k]); var d := ds[k];
            SymFind(u.sym, d.x).None? && DeclareAll(t, ds[..k + 1]) == Declare(u, d.x, d.size)
  {
    hide SymFind, Declare;
    Undeclared(t, ds[..k], ds[k].x);
    assert ds[..k + 1][..k] == ds[..k];
  }

  lemma StaysToTheEnd(t: Table, ds: seq<Decl>, k: nat, x: string)
    requires k <= |ds|
    ensures var u := DeclareAll(t, ds[..k]);
            && (SymFind(u.sym, x).Some? ==> SymFind(DeclareAll(t, ds).sym, x) == SymFind(u.sym, x))
            && u.bytes <= DeclareAll(t, ds).bytes
  {
    hide SymFind, DeclareAll;
    SlotsStay(DeclareAll(t, ds[..k]), ds[k..], x);
    DeclareAllAdds(t, ds[..k], ds[k..]);
    assert ds[..k] + ds[k..] == ds;
  }

  /** The slot of ds[k] starts right below what the declarations before it took. */
  lemma SlotOf(t: Table, ds: seq<Decl>, k: nat)
    requires k < |ds| && First(t, ds, k)
    ensures var before := DeclareAll(t, ds[..k]).bytes; var d := ds[k];
            && SymFind(DeclareAll(t, ds).sym, d.x) == Some(Symbol(d.x, -(before + Bytes(d.size)), d.size.Some?))
            && DeclareAll(t, ds[..k + 1]).bytes == before + Bytes(d.size) <= DeclareAll(t, ds).bytes
  {
    NewSlot(t, ds, k);
    hide SymFind, Bytes, DeclareAll, First;
    var d := ds[k];
    var u := DeclareAll(t, ds[..k]);
    FindAppended(u.sym, Symbol(d.x, -(u.bytes + Bytes(d.size)), d.size.Some?), d.x);
    StaysToTheEnd(t, ds, k + 1, d.x);
  }

  // ----- Functions -----

  function ParamTable(f: Func): Table { Table(ParamSymbols(f.params), 0) }

  /** Every local lies between the frame pointer and the bytes reserved below it. */
  lemma LocalsInFrame(f: Func, k: nat)
    requires k < |Decls(f.body)| && First(ParamTable(f), Decls(f.body), k)
    ensures var d := Decls(f.body)[k]; var s := SymFind(TableOf(f).sym, d.x);
            s.Some? && 0 <= s.value.off + TableOf(f).bytes && s.value.off + Bytes(d.size) <= 0
  {
    CollectIsFold(f.body, ParamTable(f));
    SlotOf(ParamTable(f), Decls(f.body), k);
  }

  /** Different locals never share a byte. */
  lemma LocalsDisjoint(f: Func, j: nat, k: nat)
    requires j < k < |Decls(f.body)| && First(ParamTable(f), Decls(f.body), j) && First(ParamTable(f), Decls(f.body), k)
    ensures var dj, dk := Decls(f.body)[j], Decls(f.body)[k];
            var sj, sk := SymFind(TableOf(f).sym, dj.x), SymFind(TableOf(f).sym, dk.x);
            sj.Some? && sk.Some? && sk.value.off + Bytes(dk.size) <= sj.value.off
  {
    var ds := Decls(f.body);
    CollectIsFold(f.body, ParamTable(f));
    SlotOf(ParamTable(f), ds, j);
    SlotOf(ParamTable(f), ds, k);
    assert ds[..j + 1] + ds[j + 1..k] == ds[..k];
    DeclareAllAdds(ParamTable(f), ds[..j + 1], ds[j + 1..k]);
    SlotsStay(DeclareAll(ParamTable(f), ds[..j + 1]), ds[j + 1..k], ds[k].x);
  }

  lemma {:induction false} FindFirst(sym: seq<Symbol>, i: nat)
    requires i < |sym| && forall j :: 0 <= j < i ==> sym[j].name != sym[i].name
    ensures SymFind(sym, sym[i].name) == Some(sym[i])
  {
    if i > 0 {
      FindFirst(sym[1..], i - 1);
    }
  }

  /** Parameter i is found at 4 + 4 * i above the frame pointer, whatever the body declares. */
  lemma ParameterSlot(f: Func, i: nat)
    requires i < |f.params| && forall j :: 0 <= j < i ==> f.params[j] != f.params[i]
    ensures SymFind(TableOf(f).sym, f.params[i]) == Some(Symbol(f.params[i], 4 + 4 * i, false))
  {
    FindFirst(ParamSymbols(f.params), i);
    CollectIsFold(f.body, ParamTable(f));
    SlotsStay(ParamTable(f), Decls(f.body), f.params[i]);
  }

  /** Every declared name has a slot, so the code of a declaration always finds one. */
  lemma {:induction false} DeclaredHasSlot(t: Table, ds: seq<Decl>, k: nat)
    requires k < |ds|
    ensures SymFind(DeclareAll(t, ds).sym, ds[k].x).Some?
  {
    var d := ds[|ds| - 1];
    var u := DeclareAll(t, ds[..|ds| - 1]);
    FindAppended(u.sym, Symbol(d.x, -(u.bytes + Bytes(d.size)), d.size.Some?), ds[k].x);
    if k < |ds| - 1 {
      DeclaredHasSlot(t, ds[..|ds| - 1], k);
    }
  }
}
