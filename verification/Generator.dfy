/** On-demand instruction generation: the reference CPU is stepped once per instruction and only a
    32-entry window of decoded instructions is kept. */
module Generator {
  import opened Arith
  import opened InstStream

  const WIN_CAP := 32

  /** What one step of the reference CPU yields. The CPU's state C is opaque to the timing models. */
  datatype Executed<C> = Executed(info: Inst, next: C, halted: bool)

  /** The instructions a CPU executes from c until it halts, or the first `budget` of them. */
  function Stream<C>(exec: C -> Executed<C>, c: C, budget: nat): (s: seq<Inst>)
    requires 1 <= budget
    ensures 1 <= |s| <= budget
    decreases budget
  {
    var e := exec(c);
    [e.info] + if e.halted || budget == 1 then [] else Stream(exec, e.next, budget - 1)
  }

  /** The CPU after k steps of its own, with no timing model attached. */
  function CpuAfter<C>(exec: C -> Executed<C>, c: C, k: nat): C {
    if k == 0 then c else exec(CpuAfter(exec, c, k - 1)).next
  }

  lemma {:induction false} CpuAfterStep<C>(exec: C -> Executed<C>, c: C, k: nat)
    requires 1 <= k
    ensures CpuAfter(exec, c, k) == CpuAfter(exec, exec(c).next, k - 1)
  {
    if k > 1 {
      CpuAfterStep(exec, c, k - 1);
    }
  }

  /** Instruction k of the stream is what the undisturbed CPU executes after k steps, and the stream ends
      at the first halt or at the budget. */
  lemma {:induction false} StreamIsCpuRun<C>(exec: C -> Executed<C>, c: C, budget: nat, k: nat)
    requires 1 <= budget && k < |Stream(exec, c, budget)|
    ensures Stream(exec, c, budget)[k] == exec(CpuAfter(exec, c, k)).info
    ensures k + 1 == |Stream(exec, c, budget)| <==> exec(CpuAfter(exec, c, k)).halted || k + 1 == budget
    decreases k
  {
    if k > 0 {
      CpuAfterStep(exec, c, k);
      StreamIsCpuRun(exec, exec(c).next, budget - 1, k - 1);
    }
  }

  /** S is what the CPU executes from c, up to its first halt or `limit` instructions. */
  ghost predicate IsProgramRun<C>(exec: C -> Executed<C>, c: C, limit: nat, S: seq<Inst>) {
    && 1 <= |S| <= limit
    && forall k: nat {:trigger CpuAfter(exec, c, k)} :: k < |S| ==>
         var e := exec(CpuAfter(exec, c, k));
         S[k] == e.info && (k + 1 == |S| <==> e.halted || k + 1 == limit)
  }

  lemma StreamIsProgramRun<C>(exec: C -> Executed<C>, c: C, limit: nat)
    requires 1 <= limit
    ensures IsProgramRun(exec, c, limit, Stream(exec, c, limit))
  {
    forall k: nat {:trigger CpuAfter(exec, c, k)} | k < |Stream(exec, c, limit)|
      ensures var e, S := exec(CpuAfter(exec, c, k)), Stream(exec, c, limit);
              S[k] == e.info && (k + 1 == |S| <==> e.halted || k + 1 == limit)
    {
      StreamIsCpuRun(exec, c, limit, k);
    }
  }

  class Gen<C> {
    const exec: C -> Executed<C>
    const limit: nat
    ghost const start: C
    ghost const S: seq<Inst>
    var cpu: C
    var count: nat
    var done: bool
    const win: array<Inst>

    ghost predicate Valid()
      reads this, win
    {
      && win.Length == WIN_CAP
      && 1 <= limit && IsProgramRun(exec, start, limit, S)
      && count <= |S| && (done <==> count == |S|)
      && cpu == CpuAfter(exec, start, count)
      && forall k :: 0 <= k < count && count <= k + WIN_CAP ==> InWindow(k)
    }

    ghost predicate InWindow(k: nat)
      requires k < |S| && win.Length == WIN_CAP
      reads win
    {
      win[Rem(k, WIN_CAP)] == S[k]
    }

    constructor (exec: C -> Executed<C>, c: C, limit: nat)
      requires 1 <= limit
      ensures Valid() && fresh(win) && count == 0
      ensures this.exec == exec && this.limit == limit && start == c && S == Stream(exec, c, limit)
    {
      StreamIsProgramRun(exec, c, limit);
      this.exec, this.limit, start, cpu := exec, limit, c, c;
      S := Stream(exec, c, limit);
      count, done := 0, false;
      win := new Inst[WIN_CAP](_ => BLANK);
    }

    /** Overwrites the window entry of the instruction WIN_CAP before. */
    method Push(d: Inst)
      requires win.Length == WIN_CAP && count < |S| && d == S[count]
      requires forall k :: 0 <= k < count && count <= k + WIN_CAP ==> InWindow(k)
      modifies win
      ensures forall k :: 0 <= k < count + 1 && count + 1 <= k + WIN_CAP ==> InWindow(k)
    {
      win[Rem(count, WIN_CAP)] := d;
      forall k | 0 <= k < count + 1 && count + 1 <= k + WIN_CAP ensures InWindow(k) {
        if k < count {
          RemDistinct(k, count, WIN_CAP);
          assert old(InWindow(k));
        }
      }
    }

    method GenOne()
      requires Valid() && !done
      modifies this`cpu, this`count, this`done, win
      ensures Valid() && count == old(count) + 1
    {
      var e := exec(cpu);
      Push(e.info);
      count := count + 1;
      cpu := e.next;
      if e.halted || count >= limit { done := true; }
    }

    /** Produces instructions up to index k, if there are that many. */
    method Ensure(k: nat) returns (ok: bool)
      requires Valid()
      modifies this`cpu, this`count, this`done, win
      ensures Valid() && ok == (k < |S|)
      ensures count == Max(old(count), if ok then k + 1 else |S|)
    {
      while count <= k && !done
        invariant Valid() && old(count) <= count <= Max(old(count), k + 1)
        decreases k + 1 - count
      {
        GenOne();
      }
      ok := k < count;
    }

    /** An entry of the window; callers may only ask for one that is not overwritten yet. */
    function At(k: nat): (d: Inst)
      requires Valid() && k < count <= k + WIN_CAP
      reads this, win
      ensures d == S[k]
    {
      assert InWindow(k);
      win[Rem(k, WIN_CAP)]
    }
  }
}
