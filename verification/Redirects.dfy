/** Which instructions are charged for redirecting fetch, read off the stream: no table and no target buffer. */
module Redirects {
  import A = Arith
  import opened InstStream
  import opened FrontEnd
  import B = BranchUnit
  import BP = BranchPredictor
  import H = PredictorHistory
  import W = Words

  function Entries(b: PredictorConfig): int { W.Pow2(if b.idxBits == 0 then 10 else b.idxBits) }

  function HistoryBits(b: PredictorConfig): nat { if b.ghistBits == 0 then 8 else b.ghistBits }

  /** The direction foreseen: unconditional transfers are taken, conditional ones as the branches before them suggest. */
  predicate Foreseen(b: PredictorConfig, S: seq<Inst>, i: nat)
    requires i < |S|
  {
    !S[i].isConditional || H.Guess(b.kind, Entries(b), HistoryBits(b), B.History(S[..i]), S[i].pc)
  }

  /** j is the last instruction before i that was taken and whose address is i's modulo n. */
  ghost predicate LastTaken(S: seq<Inst>, n: int, i: nat, j: int)
    requires i < |S| && 1 <= n
  {
    && 0 <= j < i && S[j].takenControl && S[j].pc / 4 % n == S[i].pc / 4 % n
    && forall k :: j < k < i && S[k].takenControl ==> S[k].pc / 4 % n != S[i].pc / 4 % n
  }

  /** The last taken instruction that shares i's entry was i itself, going where it goes now. */
  ghost predicate Remembered(S: seq<Inst>, n: int, i: nat)
    requires i < |S| && 1 <= n
  {
    exists j :: LastTaken(S, n, i, j) && S[j].pc == S[i].pc && S[j].target == S[i].target
  }

  /** The last taken instruction before k in entry x, and that the buffer holds it. */
  lemma {:induction false} BufferHolds(m: B.Model, S: seq<Inst>, k: nat, x: nat) returns (j: int)
    requires B.ValidModel(m) && m.pred.kind != BP.None && x < m.pred.entries && k <= |S|
    requires forall i :: 0 <= i < |m.valid| ==> !m.valid[i]
    ensures -1 <= j < k && forall i :: j < i < k && S[i].takenControl ==> A.Rem(S[i].pc / 4, m.pred.entries) != x
    ensures var a := B.After(m, S, k);
            && a.pred.entries == m.pred.entries
            && (j == -1 ==> !a.valid[x])
            && (j >= 0 ==> S[j].takenControl && A.Rem(S[j].pc / 4, m.pred.entries) == x
                           && a.valid[x] && a.tag[x] == S[j].pc && a.target[x] == S[j].target)
  {
    if k == 0 {
      j := -1;
    } else {
      j := BufferHolds(m, S, k - 1, x);
      if S[k - 1].takenControl && A.Rem(S[k - 1].pc / 4, m.pred.entries) == x {
        j := k - 1;
      }
    }
  }

  lemma KnownIff(b: PredictorConfig, S: seq<Inst>, i: nat)
    requires i < |S| && b.kind != BP.None
    ensures B.TargetKnown(B.After(InitialPredictor(b), S, i), S[i].pc, S[i].target) <==> Remembered(S, Entries(b), i)
  {
    var m, n := InitialPredictor(b), Entries(b);
    var x := A.Rem(S[i].pc / 4, n);
    var j := BufferHolds(m, S, i, x);
    forall k | 0 <= k <= i ensures A.Rem(S[k].pc / 4, n) == S[k].pc / 4 % n {
      A.QuotRemIsDivMod(S[k].pc / 4, n);
    }
    if j >= 0 {
      assert LastTaken(S, n, i, j);
    }
    if Remembered(S, n, i) {
      var l :| LastTaken(S, n, i, l) && S[l].pc == S[i].pc && S[l].target == S[i].target;
      assert l == j;
    }
  }

  lemma DirectionForeseen(b: PredictorConfig, S: seq<Inst>, i: nat)
    requires i < |S| && b.kind != BP.None
    ensures B.DirectionGuess(B.After(InitialPredictor(b), S, i), S[i]) <==> Foreseen(b, S, i)
  {
    var m := InitialPredictor(b);
    B.StatisticIsHistoryCount(m, S[..i]);
    B.AfterPrefix(m, S, i);
    H.PredictsFromHistory(b.kind, if b.idxBits == 0 then 10 else b.idxBits, HistoryBits(b), B.History(S[..i]), S[i].pc);
  }

  /** For every stream and predictor: an instruction is charged two cycles or none. Without a predictor taken instructions
      are; otherwise those whose direction was not foreseen, and the taken ones that are not remembered. */
  lemma PenaltyIff(b: PredictorConfig, S: seq<Inst>, i: nat)
    requires i < |S|
    ensures StreamPenalties(b, S)[i] ==
            if b.kind == BP.None then (if S[i].takenControl then 2 else 0)
            else if !Redirects(S[i]) then 0
            else if Foreseen(b, S, i) == S[i].takenControl && (S[i].takenControl ==> Remembered(S, Entries(b), i)) then 0
            else 2
  {
    if b.kind != BP.None {
      KnownIff(b, S, i);
      DirectionForeseen(b, S, i);
    }
    hide Foreseen, Remembered, B.TargetKnown, B.DirectionGuess;
  }

  /** Whatever the predictor, the first time an instruction is taken it is charged. */
  lemma FirstTakenIsCharged(b: PredictorConfig, S: seq<Inst>, i: nat)
    requires i < |S| && S[i].takenControl && forall j :: 0 <= j < i && S[j].takenControl ==> S[j].pc != S[i].pc
    ensures StreamPenalties(b, S)[i] == 2
  {
    PenaltyIff(b, S, i);
    hide Foreseen;
  }
}
