/** Instruction generation and branch prediction together, as all three timing models use them. */
module FrontEnd {
  import opened Arith
  import opened InstStream
  import opened Generator
  import BP = BranchPredictor
  import BranchUnit

  datatype PredictorConfig = PredictorConfig(kind: BP.Kind, idxBits: nat, ghistBits: nat)

  /** Zero bits in the configuration select the defaults. */
  function InitialPredictor(b: PredictorConfig): (m: BranchUnit.Model)
    ensures BranchUnit.ValidModel(m)
  {
    BranchUnit.InitModel(b.kind, if b.idxBits == 0 then 10 else b.idxBits, if b.ghistBits == 0 then 8 else b.ghistBits)
  }

  function StreamPenalties(b: PredictorConfig, S: seq<Inst>): (pen: seq<nat>)
    ensures |pen| == |S| && Penalties(S, pen)
  {
    BranchUnit.PenaltySeq(InitialPredictor(b), S)
  }

  datatype Report<C> = Report(instructions: nat, condBranches: nat, branchMispredicts: nat, cpu: C)

  /** What a run reports beside its cycles: it is a function of the program alone. */
  function ReportOf<C>(exec: C -> Executed<C>, c: C, limit: nat, b: PredictorConfig): Report<C>
    requires 1 <= limit
  {
    var S := Stream(exec, c, limit);
    var m := BranchUnit.After(InitialPredictor(b), S, |S|);
    Report(|S|, m.condBranches, m.branchMispredicts, CpuAfter(exec, c, |S|))
  }

  /** Guards an invariant so that it unfolds only where Unlock is mentioned. */
  ghost predicate Unlock(key: int) { true }

  class Front<C> {
    const g: Gen<C>
    const bp: BranchUnit.BranchUnit
    ghost const start: C
    ghost const model: BranchUnit.Model
    ghost const S: seq<Inst>
    ghost const pen: seq<nat>
    ghost const Repr: set<object>
    ghost var generated: nat
    ghost var charged: nat

    ghost predicate Inv()
      requires this in Repr && g in Repr && g.win in Repr && bp in Repr && bp.Repr <= Repr
      reads this, Repr
    {
      && bp in bp.Repr && bp.table in bp.Repr && bp.gtable in bp.Repr && bp.chooser in bp.Repr
      && bp.btbValid in bp.Repr && bp.btbTag in bp.Repr && bp.btbTarget in bp.Repr
      && {g, g.win} !! bp.Repr
      && g.Valid() && g.S == S && g.start == start && g.count == generated
      && BranchUnit.ValidModel(model) && pen == BranchUnit.PenaltySeq(model, S)
      && charged <= |S|
      && bp.Valid() && bp.Contents() == BranchUnit.After(model, S, charged)
    }

    /** Both parts agree with the stream: `generated` instructions produced, `charged` of them seen by the predictor. */
    ghost predicate Ready()
      reads this, Repr
    {
      && this in Repr && g in Repr && g.win in Repr && bp in Repr && bp.Repr <= Repr
      && this !in bp.Repr && |pen| == |S|
      && forall key {:trigger Unlock(key)} :: Unlock(key) ==> Inv()
    }

    constructor (exec: C -> Executed<C>, c: C, limit: nat, b: PredictorConfig)
      requires 1 <= limit
      ensures Ready() && fresh(Repr) && generated == charged == 0 && start == c
      ensures g.exec == exec && S == Stream(exec, c, limit)
      ensures model == InitialPredictor(b) && pen == StreamPenalties(b, S)
    {
      var g' := new Gen(exec, c, limit);
      var bp' := new BranchUnit.BranchUnit(b.kind, if b.idxBits == 0 then 10 else b.idxBits,
                                           if b.ghistBits == 0 then 8 else b.ghistBits);
      g, bp, start := g', bp', c;
      S, model, pen := g'.S, InitialPredictor(b), StreamPenalties(b, g'.S);
      Repr := {this, g', g'.win} + bp'.Repr;
      generated, charged := 0, 0;
    }

    /** Generates up to instruction k, if the program goes that far. */
    method Ensure(k: nat) returns (ok: bool)
      requires Ready()
      modifies Repr
      ensures Ready() && ok == (k < |S|) && charged == old(charged)
      ensures generated == Max(old(generated), if ok then k + 1 else |S|)
    {
      assert Unlock(0);
      ok := g.Ensure(k);
      generated := g.count;
    }

    /** An instruction still in the generator's window. */
    function At(k: nat): (d: Inst)
      requires Ready() && k < generated <= k + WIN_CAP
      reads this, Repr
      ensures k < |S| && d == S[k]
    {
      assert Unlock(0);
      g.At(k)
    }

    /** The fetch penalty of the next instruction in program order. */
    method Charge(d: Inst) returns (penalty: nat)
      requires Ready() && charged < |S| && d == S[charged]
      modifies Repr
      ensures Ready() && charged == old(charged) + 1 <= |S| && penalty == pen[charged - 1] && generated == old(generated)
    {
      assert Unlock(0);
      penalty := 0;
      if Redirects(d) { penalty := bp.ControlPenalty(d); }
      charged := charged + 1;
    }

    /** Instruction i and its penalty, for a model that takes instructions one by one. */
    method Next(i: nat) returns (ok: bool, d: Inst, penalty: nat)
      requires Ready() && generated == charged == i <= |S|
      modifies Repr
      ensures Ready() && ok == (i < |S|) && generated == charged == if ok then i + 1 else i
      ensures ok ==> d == S[i] && penalty == pen[i]
    {
      ok := Ensure(i);
      d, penalty := BLANK, 0;
      if ok {
        d := At(i);
        penalty := Charge(d);
      }
    }

    lemma DoneMeans()
      requires Ready()
      ensures g.done <==> generated == |S|
    {
      assert Unlock(0);
    }

    method Summary() returns (r: Report<C>)
      requires Ready()
      ensures r.instructions == generated && r.cpu == CpuAfter(g.exec, start, generated)
      ensures BranchUnit.ValidModel(model) && charged <= |S|
      ensures var m := BranchUnit.After(model, S, charged);
              r.condBranches == m.condBranches && r.branchMispredicts == m.branchMispredicts
    {
      assert Unlock(0);
      r := Report(g.count, bp.condBranches, bp.branchMispredicts, g.cpu);
    }
  }
}
