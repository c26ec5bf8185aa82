/** The predictor as the timing models use it: in-place tables, the branch target buffer and fetch penalties. */
module BranchUnit {
  import opened Arith
  import opened InstStream
  import BP = BranchPredictor
  import W = Words

  /** Predictor, branch target buffer and the two branch statistics, as a value. */
  datatype Model = Model(pred: BP.Pred, valid: seq<bool>, tag: seq<Word>, target: seq<Word>,
                         condBranches: nat, branchMispredicts: nat)

  predicate ValidModel(m: Model) {
    && BP.ValidPred(m.pred)
    && |m.valid| == |m.tag| == |m.target| == m.pred.entries
  }

  function InitModel(kind: BP.Kind, idxBits: nat, ghistBits: nat): (m: Model)
    ensures ValidModel(m)
  {
    var p := BP.Init(kind, idxBits, ghistBits);
    Model(p, seq(p.entries, _ => false), seq(p.entries, _ => 0), seq(p.entries, _ => 0), 0, 0)
  }

  /** Whether the buffer knows the target of the branch at pc. */
  predicate TargetKnown(m: Model, pc: Word, target: Word)
    requires ValidModel(m)
  {
    var i := BP.BimodalIdx(m.pred, pc);
    m.valid[i] && m.tag[i] == pc && m.target[i] == target
  }

  predicate DirectionGuess(m: Model, d: Inst)
    requires ValidModel(m)
  {
    if d.isConditional then BP.Predict(m.pred, d.pc) else true
  }

  /** Fetch goes wrong on a wrong direction, or on a taken branch whose target is unknown. */
  predicate FetchGoesWrong(m: Model, d: Inst)
    requires ValidModel(m)
  {
    if m.pred.kind == BP.None then d.takenControl
    else DirectionGuess(m, d) != d.takenControl || (d.takenControl && !TargetKnown(m, d.pc, d.target))
  }

  function TrainDirection(m: Model, d: Inst): (m': Model)
    requires ValidModel(m)
    ensures ValidModel(m') && m'.pred.kind == m.pred.kind && m'.pred.entries == m.pred.entries
  {
    if d.isConditional
    then m.(condBranches := m.condBranches + 1,
            branchMispredicts := m.branchMispredicts + if BP.Predict(m.pred, d.pc) != d.takenControl then 1 else 0,
            pred := BP.Update(m.pred, d.pc, d.takenControl))
    else m
  }

  function TrainTarget(m: Model, d: Inst): (m': Model)
    requires ValidModel(m)
    ensures ValidModel(m') && m'.pred == m.pred
  {
    if d.takenControl
    then var i := BP.BimodalIdx(m.pred, d.pc);
         m.(valid := m.valid[i := true], tag := m.tag[i := d.pc], target := m.target[i := d.target])
    else m
  }

  function Trained(m: Model, d: Inst): (m': Model)
    requires ValidModel(m)
    ensures ValidModel(m') && m'.pred.kind == m.pred.kind
  {
    if m.pred.kind == BP.None then m else TrainTarget(TrainDirection(m, d), d)
  }

  // ----- Penalties are a function of the stream alone -----

  /** The predictor after the first k instructions; only redirecting instructions consult it. */
  function After(m: Model, S: seq<Inst>, k: nat): (m': Model)
    requires ValidModel(m) && k <= |S|
    ensures ValidModel(m') && m'.pred.kind == m.pred.kind
  {
    if k == 0 then m
    else
      var p := After(m, S, k - 1);
      if Redirects(S[k - 1]) then Trained(p, S[k - 1]) else p
  }

  function PenaltyAt(m: Model, S: seq<Inst>, i: nat): (p: nat)
    requires ValidModel(m) && i < |S|
  {
    if Redirects(S[i]) && FetchGoesWrong(After(m, S, i), S[i]) then CONTROL_PENALTY else 0
  }

  function PenaltySeq(m: Model, S: seq<Inst>): (pen: seq<nat>)
    requires ValidModel(m)
    ensures |pen| == |S| && forall i :: 0 <= i < |S| ==> pen[i] == PenaltyAt(m, S, i)
    ensures Penalties(S, pen)
  {
    seq(|S|, i requires 0 <= i < |S| => PenaltyAt(m, S, i))
  }

  /** The branch history a stream presents to the direction predictor. */
  function History(S: seq<Inst>): seq<BP.Branch> {
    if S == [] then []
    else
      var d := S[|S| - 1];
      History(S[..|S| - 1]) + if d.isConditional then [BP.Branch(d.pc, d.takenControl)] else []
  }

  /** The reported direction mispredictions are those of the bare predictor on the stream's branch history,
      so the competitive bounds on histories are bounds on the reported statistic. */
  lemma {:induction false} StatisticIsHistoryCount(m: Model, S: seq<Inst>)
    requires ValidModel(m) && m.pred.kind != BP.None && m.branchMispredicts == 0 && m.condBranches == 0
    ensures CountsHistory(m, After(m, S, |S|), History(S))
  {
    if S != [] {
      var init, d := S[..|S| - 1], S[|S| - 1];
      StatisticIsHistoryCount(m, init);
      AfterPrefix(m, S, |S| - 1);
      HistoryStep(m, After(m, init, |init|), History(init), d);
    }
  }

  ghost predicate CountsHistory(m: Model, n: Model, h: seq<BP.Branch>)
    requires ValidModel(m)
  {
    n.pred == BP.After(m.pred, h) && n.branchMispredicts == BP.Mispredicts(m.pred, h) && n.condBranches == |h|
  }

  lemma {:induction false} AfterPrefix(m: Model, S: seq<Inst>, k: nat)
    requires ValidModel(m) && k <= |S|
    ensures After(m, S, k) == After(m, S[..k], k)
    decreases k
  {
    if k > 0 {
      AfterPrefix(m, S, k - 1);
      assert S[..k][..k - 1] == S[..k - 1];
      AfterPrefix(m, S[..k], k - 1);
    }
  }

  lemma HistoryStep(m: Model, n: Model, h: seq<BP.Branch>, d: Inst)
    requires ValidModel(m) && ValidModel(n) && n.pred.kind != BP.None && CountsHistory(m, n, h)
    ensures CountsHistory(m, if Redirects(d) then Trained(n, d) else n,
                          h + if d.isConditional then [BP.Branch(d.pc, d.takenControl)] else [])
  {
    if d.isConditional {
      BP.OneMore(m.pred, h, BP.Branch(d.pc, d.takenControl));
    } else {
      assert h + [] == h;
    }
  }

  // ----- The in-place predictor -----

  method NewArray<T>(s: seq<T>) returns (a: array<T>)
    ensures fresh(a) && a[..] == s
  {
    a := new T[|s|](i requires 0 <= i < |s| => s[i]);
  }

  class BranchUnit {
    const kind: BP.Kind
    const entries: int
    const histSize: int
    const table: array<BP.Counter>
    const gtable: array<BP.Counter>
    const chooser: array<BP.Counter>
    var ghist: Word
    const btbValid: array<bool>
    const btbTag: array<Word>
    const btbTarget: array<Word>
    var condBranches: nat
    var branchMispredicts: nat

    ghost const Repr: set<object>

    ghost predicate Valid()
      reads this, table, gtable, chooser, btbValid, btbTag, btbTarget
    {
      && Repr == {this, table, gtable, chooser, btbValid, btbTag, btbTarget}
      && table != gtable && table != chooser && gtable != chooser && btbTag != btbTarget
      && table as object != btbTag as object && ValidModel(Contents())
    }

    ghost function Contents(): Model
      reads this, table, gtable, chooser, btbValid, btbTag, btbTarget
    {
      Model(BP.Pred(kind, entries, histSize, table[..], gtable[..], chooser[..], ghist),
            btbValid[..], btbTag[..], btbTarget[..], condBranches, branchMispredicts)
    }

    constructor (kind: BP.Kind, idxBits: nat, ghistBits: nat)
      ensures Valid() && fresh(Repr)
      ensures Contents() == InitModel(kind, idxBits, ghistBits)
    {
      var m := InitModel(kind, idxBits, ghistBits);
      var p := m.pred;
      this.kind, entries, histSize, ghist := kind, p.entries, p.histSize, 0;
      var t := NewArray(p.table);
      var g := NewArray(p.gtable);
      var c := NewArray(p.chooser);
      var v := NewArray(m.valid);
      var bt := NewArray(m.tag);
      var bg := NewArray(m.target);
      table, gtable, chooser, btbValid, btbTag, btbTarget := t, g, c, v, bt, bg;
      condBranches, branchMispredicts := 0, 0;
      Repr := {this, t, g, c, v, bt, bg};
    }

    method SatUpdate(a: array<BP.Counter>, i: nat, up: bool)
      requires i < a.Length
      modifies a
      ensures a[..] == BP.Bump(old(a[..]), i, up)
    {
      if up {
        if a[i] < 3 { a[i] := a[i] + 1; }
      } else {
        if a[i] > 0 { a[i] := a[i] - 1; }
      }
    }

    method Predict(pc: Word) returns (taken: bool)
      requires Valid()
      ensures taken == BP.Predict(Contents().pred, pc)
    {
      ghost var p := Contents().pred;
      var bi := Rem(pc / 4, entries);
      match kind
      case None | StaticNT => taken := false;
      case Bimodal1 => taken := table[bi] != 0;
      case Bimodal2 => taken := table[bi] >= 2;
      case Gshare =>
        var gi := GshareIndex(pc);
        taken := table[gi] >= 2;
      case Tournament =>
        var gi := GshareIndex(pc);
        var ci := ChooserIndex();
        taken := if chooser[ci] >= 2 then gtable[gi] >= 2 else table[bi] >= 2;
      case Tournament3 => taken := PredictThree(pc);
    }

    method PredictThree(pc: Word) returns (taken: bool)
      requires Valid() && kind == BP.Tournament3
      ensures taken == BP.Predict(Contents().pred, pc)
    {
      hide BP.GshareIdx, BP.HistVal, W.Xor, Rem;
      var bi := Rem(pc / 4, entries);
      var gi := GshareIndex(pc);
      var cs, cb, cg := chooser[3 * bi], chooser[3 * bi + 1], chooser[3 * bi + 2];
      if cg >= cb && cg >= cs { taken := gtable[gi] >= 2; }
      else if cb >= cs { taken := table[bi] >= 2; }
      else { taken := false; }
    }

    method GshareIndex(pc: Word) returns (i: nat)
      requires Valid()
      ensures i == BP.GshareIdx(Contents().pred, pc)
    {
      ghost var h := BP.HistVal(Contents().pred);
      i := Rem(W.Xor(pc / 4, Rem(ghist, histSize)), entries);
    }

    method ChooserIndex() returns (i: nat)
      requires Valid()
      ensures i == BP.ChooserIdx(Contents().pred)
    {
      i := Rem(Rem(ghist, histSize), entries);
    }

    /** The bimodal and gshare halves of a tournament, and the global history. */
    method UpdateHalves(pc: Word, taken: bool)
      requires Valid() && BP.Hybrid(kind)
      modifies this`ghist, table, gtable
      ensures Valid() && chooser[..] == old(chooser[..])
      ensures var p := old(Contents().pred);
              Contents() == old(Contents()).(pred := p.(table := BP.Bump(p.table, BP.BimodalIdx(p, pc), taken),
                                                        gtable := BP.Bump(p.gtable, BP.GshareIdx(p, pc), taken),
                                                        ghist := BP.Shift(p.ghist, taken)))
    {
      var gi := GshareIndex(pc);
      SatUpdate(table, Rem(pc / 4, entries), taken);
      SatUpdate(gtable, gi, taken);
      ghist := BP.Shift(ghist, taken);
    }

    method UpdateChooser3(pc: Word, taken: bool)
      requires Valid() && kind == BP.Tournament3
      modifies chooser
      ensures Valid()
      ensures var p := old(Contents().pred);
              Contents() == old(Contents()).(pred := p.(chooser := BP.Update(p, pc, taken).chooser))
    {
      var gi := GshareIndex(pc);
      var bi := Rem(pc / 4, entries);
      SatUpdate(chooser, 3 * bi, !taken);
      SatUpdate(chooser, 3 * bi + 1, (table[bi] >= 2) == taken);
      SatUpdate(chooser, 3 * bi + 2, (gtable[gi] >= 2) == taken);
    }

    method UpdateChooser(pc: Word, taken: bool)
      requires Valid() && kind == BP.Tournament
      modifies chooser
      ensures Valid()
      ensures var p := old(Contents().pred);
              Contents() == old(Contents()).(pred := p.(chooser := BP.Update(p, pc, taken).chooser))
    {
      var gi := GshareIndex(pc);
      var bi := Rem(pc / 4, entries);
      var bc, gc := (table[bi] >= 2) == taken, (gtable[gi] >= 2) == taken;
      if bc != gc {
        var ci := ChooserIndex();
        SatUpdate(chooser, ci, gc);
      }
    }

    method Update(pc: Word, taken: bool)
      requires Valid()
      modifies this`ghist, table, gtable, chooser
      ensures Valid()
      ensures Contents() == old(Contents()).(pred := BP.Update(old(Contents().pred), pc, taken))
    {
      var bi := Rem(pc / 4, entries);
      match kind
      case None | StaticNT =>
      case Bimodal1 => table[bi] := if taken then 1 else 0;
      case Bimodal2 => SatUpdate(table, bi, taken);
      case Gshare =>
        var gi := GshareIndex(pc);
        SatUpdate(table, gi, taken);
        ghist := BP.Shift(ghist, taken);
      case Tournament =>
        UpdateChooser(pc, taken);
        UpdateHalves(pc, taken);
      case Tournament3 =>
        UpdateChooser3(pc, taken);
        UpdateHalves(pc, taken);
    }

    method CountAndUpdate(d: Inst, guess: bool)
      requires Valid() && guess == DirectionGuess(Contents(), d)
      modifies this, table, gtable, chooser
      ensures Valid() && Contents() == TrainDirection(old(Contents()), d)
    {
      if d.isConditional {
        condBranches := condBranches + 1;
        if guess != d.takenControl { branchMispredicts := branchMispredicts + 1; }
        Update(d.pc, d.takenControl);
      }
    }

    method BtbUpdate(d: Inst)
      requires Valid()
      modifies btbValid, btbTag, btbTarget
      ensures Valid() && Contents() == TrainTarget(old(Contents()), d)
    {
      if d.takenControl {
        var i := Rem(d.pc / 4, entries);
        btbValid[i], btbTag[i], btbTarget[i] := true, d.pc, d.target;
      }
    }

    method BtbLookup(pc: Word) returns (hit: bool, target: Word)
      requires Valid()
      ensures hit ==> TargetKnown(Contents(), pc, target)
      ensures forall t :: TargetKnown(Contents(), pc, t) ==> hit && t == target
    {
      var i := Rem(pc / 4, entries);
      hit := btbValid[i] && btbTag[i] == pc;
      target := if hit then btbTarget[i] else 0;
    }

    /** The fetch penalty of a redirecting instruction; trains the predictor and the target buffer. */
    method ControlPenalty(d: Inst) returns (penalty: nat)
      requires Valid()
      modifies Repr
      ensures Valid() && Contents() == Trained(old(Contents()), d)
      ensures penalty == if FetchGoesWrong(old(Contents()), d) then CONTROL_PENALTY else 0
    {
      if kind == BP.None {
        return if d.takenControl then CONTROL_PENALTY else 0;
      }
      var guess := true;
      if d.isConditional { guess := Predict(d.pc); }
      var hit, predTarget := BtbLookup(d.pc);
      var wrong := guess != d.takenControl || (d.takenControl && (!hit || predTarget != d.target));
      CountAndUpdate(d, guess);
      BtbUpdate(d);
      penalty := if wrong then CONTROL_PENALTY else 0;
    }
  }
}
