/** The peephole pass: what it does to the line buffer, that it ends in a normal form, and that runs stay the same. */
module Peephole {
  import opened Words
  import opened Machine
  import opened CodeRuns
  import opened CodeShape
  import opened Rewriting

  /** The output buffer after one more line. */
  function Emit(out: seq<Line>, cur: Line): seq<Line> {
    if SelfMove(cur) then out
    else if out != [] && PushPop(out[|out| - 1], cur) then
      out[..|out| - 1]
      + if out[|out| - 1].i.rd == cur.i.rd then [] else [Op(Mov(cur.i.rd, out[|out| - 1].i.rd))]
    else if out != [] && StoreLoad(out[|out| - 1], cur) then out
    else out + [cur]
  }

  /** One pass over the rest of the lines. */
  function Pass(out: seq<Line>, rest: seq<Line>): seq<Line>
    decreases |rest|
  {
    if rest == [] then out else Pass(Emit(out, rest[0]), rest[1..])
  }

  lemma {:induction false} PassShrinks(out: seq<Line>, rest: seq<Line>)
    ensures |Pass(out, rest)| <= |out| + |rest|
    decreases |rest|
  {
    if rest != [] {
      PassShrinks(Emit(out, rest[0]), rest[1..]);
    }
  }

  /** Passes until one changes nothing. */
  function Optimize(lines: seq<Line>): seq<Line>
    decreases |lines|
  {
    PassShrinks([], lines);
    var next := Pass([], lines);
    if |next| < |lines| then Optimize(next) else next
  }

  // ----- Normal form -----

  /** No rewrite applies at line i. */
  predicate Settled(lines: seq<Line>, i: nat)
    requires i < |lines|
  {
    !SelfMove(lines[i]) && (i > 0 ==> !PushPop(lines[i - 1], lines[i]) && !StoreLoad(lines[i - 1], lines[i]))
  }

  /** A pass either shortens the buffer or finds nothing to do: changed and shorter are the same. */
  lemma {:induction false} UnchangedIsSettled(out: seq<Line>, rest: seq<Line>)
    requires |Pass(out, rest)| == |out| + |rest|
    ensures Pass(out, rest) == out + rest
    ensures forall i :: |out| <= i < |out + rest| ==> Settled(out + rest, i)
    decreases |rest|
  {
    if rest == [] {
      assert out + rest == out;
    } else {
      var next := Emit(out, rest[0]);
      PassShrinks(next, rest[1..]);
      assert next == out + [rest[0]];
      assert out + rest == next + rest[1..];
      UnchangedIsSettled(next, rest[1..]);
    }
  }

  /** The result has no self-move, no adjacent push and pop, and no store with its own load right behind. */
  lemma {:induction false} OptimizeIsNormal(lines: seq<Line>)
    ensures var o := Optimize(lines); |o| <= |lines| && forall i :: 0 <= i < |o| ==> Settled(o, i)
    decreases |lines|
  {
    PassShrinks([], lines);
    var next := Pass([], lines);
    if |next| < |lines| {
      OptimizeIsNormal(next);
    } else {
      UnchangedIsSettled([], lines);
      assert [] + lines == lines;
    }
  }

  /** Spelled out: no move of a register to itself; no pop right behind a push; no load into R0 right behind a store of
      whatever register to the same address. */
  lemma NoPatternLeft(lines: seq<Line>, i: nat)
    requires i < |Optimize(lines)|
    ensures var o := Optimize(lines);
            && (forall r :: o[i] != Op(Mov(r, r)))
            && (0 < i ==> forall r, q :: !(o[i - 1] == Op(Push(r)) && o[i] == Op(Pop(q))))
            && (0 < i ==> forall r, off, q :: !(o[i - 1] == Op(Store(r, off, q)) && o[i] == Op(Load(0, r, off))))
  {
    OptimizeIsNormal(lines);
    hide Optimize;
    assert Settled(Optimize(lines), i);
  }

  /** Nothing is left to do for a second run. */
  lemma OptimizeAgain(lines: seq<Line>)
    ensures Optimize(Optimize(lines)) == Optimize(lines)
  {
    var o := Optimize(lines);
    OptimizeIsNormal(lines);
    assert [] + o == o;
    hide Optimize, Settled;
    SettledStays([], o);
    hide Pass;
    OptimizeOnce(o);
  }

  lemma OptimizeOnce(o: seq<Line>)
    requires Pass([], o) == o
    ensures Optimize(o) == o
  {
  }

  lemma {:induction false} SettledStays(out: seq<Line>, rest: seq<Line>)
    requires forall i :: |out| <= i < |out + rest| ==> Settled(out + rest, i)
    ensures Pass(out, rest) == out + rest
    decreases |rest|
  {
    if rest == [] {
      assert out + rest == out;
    } else {
      assert Settled(out + rest, |out|);
      assert Emit(out, rest[0]) == out + [rest[0]];
      assert out + rest == (out + [rest[0]]) + rest[1..];
      SettledStays(out + [rest[0]], rest[1..]);
    }
  }

  // ----- Runs -----

  /** Where the current line is rewritten, if it is. */
  function SiteOf(out: seq<Line>, cur: Line, rest: seq<Line>): Site {
    if SelfMove(cur) then Site(out, [cur], [], rest)
    else if out != [] && PushPop(out[|out| - 1], cur) then
      Site(out[..|out| - 1], [out[|out| - 1], cur],
           if out[|out| - 1].i.rd == cur.i.rd then [] else [Op(Mov(cur.i.rd, out[|out| - 1].i.rd))], rest)
    else Site(if out == [] then [] else out[..|out| - 1], if out == [] then [] else [out[|out| - 1], cur],
              if out == [] then [] else [out[|out| - 1]], rest)
  }

  predicate Matches(out: seq<Line>, cur: Line) {
    SelfMove(cur) || (out != [] && (PushPop(out[|out| - 1], cur) || StoreLoad(out[|out| - 1], cur)))
  }

  lemma SiteInPlace(out: seq<Line>, cur: Line, rest: seq<Line>)
    requires Matches(out, cur) && Guarded(out + ([cur] + rest))
    ensures var s := SiteOf(out, cur, rest);
            Rewrites(s.x, s.y) && Old(s) == out + ([cur] + rest) && New(s) == Emit(out, cur) + rest
  {
    var all := out + ([cur] + rest);
    assert all[|out|] == cur;
    if !SelfMove(cur) && !PushPop(out[|out| - 1], cur) {
      assert all[|out| - 1] == out[|out| - 1];
      assert StoresR0(all[|out| - 1]);
    }
  }

  lemma RewriteKeepsGuard(s: Site)
    requires Rewrites(s.x, s.y) && Guarded(Old(s))
    ensures Guarded(New(s))
  {
    assert Old(s)[|s.a|] == s.x[0];
    forall i | 0 <= i < |New(s)| && !StoresR0(New(s)[i]) ensures i + 1 < |New(s)| && New(s)[i + 1] == Op(Mov(FP, SP)) {
      if i < |s.a| {
        assert Old(s)[i] == New(s)[i];
        assert Old(s)[i + 1] == Op(Mov(FP, SP));
      } else if |s.a| + |s.y| <= i {
        assert Old(s)[i - |s.y| + |s.x|] == New(s)[i];
        assert Old(s)[i - |s.y| + |s.x| + 1] == Op(Mov(FP, SP));
      }
    }
  }

  /** One more line changes neither whether the program halts nor what it shows. */
  lemma EmitKeepsRuns(out: seq<Line>, cur: Line, rest: seq<Line>, addr: map<string, Word>, base: int, room: nat,
      m: Machine, v: Machine)
    requires Guarded(out + ([cur] + rest)) && m.pc == 0 && m.stack == []
    ensures Guarded(Emit(out, cur) + rest)
    ensures HaltsAs(Image(out + ([cur] + rest), addr, base, room), m, v)
       <==> HaltsAs(Image(Emit(out, cur) + rest, addr, base, room), m, v)
    ensures HaltsLow(Image(out + ([cur] + rest), addr, base, room), m, v) ==> HaltsLow(Image(Emit(out, cur) + rest, addr, base, room), m, v)
  {
    if Matches(out, cur) {
      SiteInPlace(out, cur, rest);
      hide Emit, Matches, Guarded, HaltsAs, HaltsLow, SiteOf, Rewrites, Old, New;
      var s := SiteOf(out, cur, rest);
      RewriteKeepsGuard(s);
      RewriteKeepsRuns(s, addr, base, room, m, v);
    } else {
      assert Emit(out, cur) + rest == out + ([cur] + rest);
    }
  }

  lemma {:induction false} PassKeepsRuns(out: seq<Line>, rest: seq<Line>, addr: map<string, Word>, base: int, room: nat,
      m: Machine, v: Machine)
    requires Guarded(out + rest) && m.pc == 0 && m.stack == []
    ensures Guarded(Pass(out, rest))
    ensures HaltsAs(Image(out + rest, addr, base, room), m, v)
       <==> HaltsAs(Image(Pass(out, rest), addr, base, room), m, v)
    ensures HaltsLow(Image(out + rest, addr, base, room), m, v) ==> HaltsLow(Image(Pass(out, rest), addr, base, room), m, v)
    decreases |rest|
  {
    hide Emit, Guarded, HaltsAs, HaltsLow;
    if rest == [] {
      assert out + rest == out;
    } else {
      assert out + rest == out + ([rest[0]] + rest[1..]);
      EmitKeepsRuns(out, rest[0], rest[1..], addr, base, room, m, v);
      PassKeepsRuns(Emit(out, rest[0]), rest[1..], addr, base, room, m, v);
    }
  }

  /** Optimised code halts exactly when the original does, with the same registers, flags, memory, input and output. */
  lemma {:induction false} OptimizeKeepsRuns(lines: seq<Line>, addr: map<string, Word>, base: int, room: nat, m: Machine, v: Machine)
    requires Guarded(lines) && m.pc == 0 && m.stack == []
    ensures HaltsAs(Image(lines, addr, base, room), m, v)
       <==> HaltsAs(Image(Optimize(lines), addr, base, room), m, v)
    ensures HaltsLow(Image(lines, addr, base, room), m, v) ==> HaltsLow(Image(Optimize(lines), addr, base, room), m, v)
    decreases |lines|
  {
    hide Pass, Guarded, HaltsAs, HaltsLow;
    PassShrinks([], lines);
    var next := Pass([], lines);
    assert [] + lines == lines;
    PassKeepsRuns([], lines, addr, base, room, m, v);
    if |next| < |lines| {
      OptimizeKeepsRuns(next, addr, base, room, m, v);
    }
  }

  // ----- Data -----

  ghost predicate IsData(lines: seq<Line>) { forall i :: 0 <= i < |lines| ==> !lines[i].Op? }

  lemma {:induction false} PassData(out: seq<Line>, data: seq<Line>)
    requires IsData(data)
    ensures Pass(out, data) == out + data
    decreases |data|
  {
    if data == [] {
      assert out + data == out;
    } else {
      assert Emit(out, data[0]) == out + [data[0]];
      hide Emit;
      PassData(out + [data[0]], data[1..]);
      assert out + [data[0]] + data[1..] == out + data;
    }
  }

  /** Data and labels at the end are never touched. */
  lemma {:induction false} PassOverData(out: seq<Line>, rest: seq<Line>, data: seq<Line>)
    requires IsData(data)
    ensures Pass(out, rest + data) == Pass(out, rest) + data
    decreases |rest|
  {
    hide Emit, IsData;
    if rest == [] {
      assert rest + data == data;
      PassData(out, data);
    } else {
      assert (rest + data)[0] == rest[0] && (rest + data)[1..] == rest[1..] + data;
      PassOverData(Emit(out, rest[0]), rest[1..], data);
    }
  }

  lemma {:induction false} OptimizeOverData(code: seq<Line>, data: seq<Line>)
    requires IsData(data)
    ensures Optimize(code + data) == Optimize(code) + data
    decreases |code|
  {
    hide Pass;
    PassOverData([], code, data);
    PassShrinks([], code);
    if |Pass([], code)| < |code| {
      OptimizeOverData(Pass([], code), data);
    }
  }
}
