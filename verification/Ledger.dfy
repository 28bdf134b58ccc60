/**
  A running value changed by one element after the other, with the lines written
  down along the way.  What a step does and what a line says are parameters, so
  nothing here depends on what an element is.
 */
module Ledger {

  function Running<T, R>(step: (R, T) -> R, start: R, s: seq<T>): R {
    if s == [] then start
    else
      var n := |s| - 1;
      step(Running(step, start, s[..n]), s[n])
  }

  /** Each element's line may look at the running value before it. */
  function Lines<T, R, A>(step: (R, T) -> R, line: (T, R) -> seq<A>, start: R, s: seq<T>): seq<A> {
    if s == [] then []
    else
      var n := |s| - 1;
      Lines(step, line, start, s[..n]) + line(s[n], Running(step, start, s[..n]))
  }

  lemma RunningAppend<T, R>(step: (R, T) -> R, start: R, s: seq<T>, x: T)
    ensures Running(step, start, s + [x]) == step(Running(step, start, s), x)
  {
    assert (s + [x])[..|s|] == s;
  }

  lemma LinesAppend<T, R, A>(step: (R, T) -> R, line: (T, R) -> seq<A>, start: R, s: seq<T>, x: T)
    ensures Lines(step, line, start, s + [x]) == Lines(step, line, start, s) + line(x, Running(step, start, s))
  {
    assert (s + [x])[..|s|] == s;
  }

  /** One more element. */
  lemma LedgerStep<T, R, A>(step: (R, T) -> R, line: (T, R) -> seq<A>, start: R, s: seq<T>, i: nat)
    requires i < |s|
    ensures Running(step, start, s[..i + 1]) == step(Running(step, start, s[..i]), s[i])
    ensures Lines(step, line, start, s[..i + 1])
        == Lines(step, line, start, s[..i]) + line(s[i], Running(step, start, s[..i]))
  {
    assert s[..i + 1][..i] == s[..i];
  }

  // ---------- order ----------

  /** Two steps may be swapped. */
  ghost predicate Commutes<T(!new), R(!new)>(step: (R, T) -> R) {
    forall r, x, y :: step(step(r, x), y) == step(step(r, y), x)
  }

  lemma RemoveSlices<T>(s: seq<T>, i: nat)
    requires i < |s| - 1
    ensures s[..i] + s[i + 1..] == s[..|s| - 1][..i] + s[..|s| - 1][i + 1..] + [s[|s| - 1]]
    ensures s[..|s| - 1][i] == s[i]
  {
  }

  /** Any element can be pulled out to the end. */
  lemma {:induction false} RunningRemove<T(!new), R(!new)>(step: (R, T) -> R, start: R, s: seq<T>, i: nat)
    requires Commutes(step) && i < |s|
    ensures Running(step, start, s) == step(Running(step, start, s[..i] + s[i + 1..]), s[i])
  {
    var n := |s| - 1;
    if i == n {
      assert s[..i] + s[i + 1..] == s[..n];
    } else {
      RunningRemove(step, start, s[..n], i);
      RemoveSlices(s, i);
      var front := s[..n][..i] + s[..n][i + 1..];
      RunningAppend(step, start, front, s[n]);
      var r := Running(step, start, front);
      assert step(step(r, s[i]), s[n]) == step(step(r, s[n]), s[i]);
    }
  }

  lemma MultisetRemove<T>(s: seq<T>, i: nat)
    requires i < |s|
    ensures multiset(s[..i] + s[i + 1..]) == multiset(s) - multiset{s[i]}
  {
    assert s == s[..i] + [s[i]] + s[i + 1..];
  }

  /** The result does not depend on the order. */
  lemma {:induction false} RunningPermute<T(!new), R(!new)>(step: (R, T) -> R, start: R, s: seq<T>, t: seq<T>)
    requires Commutes(step) && multiset(s) == multiset(t)
    ensures Running(step, start, s) == Running(step, start, t)
    decreases |s|
  {
    if s == [] {
      assert |multiset(t)| == 0;
    } else {
      var n := |s| - 1;
      assert s[n] in multiset(t) by { assert s[n] in multiset(s); }
      var i :| 0 <= i < |t| && t[i] == s[n];
      MultisetRemove(s, n);
      MultisetRemove(t, i);
      assert s[..n] + s[n + 1..] == s[..n];
      RunningPermute(step, start, s[..n], t[..i] + t[i + 1..]);
      RunningRemove(step, start, t, i);
    }
  }

  function Keep<T>(keep: T -> bool, s: seq<T>): seq<T> {
    if s == [] then []
    else
      var n := |s| - 1;
      Keep(keep, s[..n]) + (if keep(s[n]) then [s[n]] else [])
  }

  /** Elements that change nothing and have no line can be left out without a trace. */
  lemma {:induction false} KeepOnly<T(!new), R(!new), A>(
    step: (R, T) -> R, line: (T, R) -> seq<A>, keep: T -> bool, start: R, s: seq<T>)
    requires forall x, r :: !keep(x) ==> step(r, x) == r && line(x, r) == []
    ensures Running(step, start, Keep(keep, s)) == Running(step, start, s)
    ensures Lines(step, line, start, Keep(keep, s)) == Lines(step, line, start, s)
  {
    if s != [] {
      var n := |s| - 1;
      var kept := Keep(keep, s[..n]);
      KeepOnly(step, line, keep, start, s[..n]);
      if keep(s[n]) {
        assert Keep(keep, s)[..|kept|] == kept;
      } else {
        var r := Running(step, start, s[..n]);
        assert step(r, s[n]) == r && line(s[n], r) == [];
        assert Keep(keep, s) == kept;
      }
    }
  }

  // ---------- size ----------

  /** From a larger value, `g` leads to no less than `f` does. */
  ghost predicate Dominated<T(!new)>(f: (real, T) -> real, g: (real, T) -> real) {
    forall a, b, x :: 0.0 <= a <= b ==> 0.0 <= f(a, x) <= g(b, x)
  }

  lemma DominatedStep<T(!new)>(f: (real, T) -> real, g: (real, T) -> real, a: real, b: real, x: T)
    requires Dominated(f, g) && 0.0 <= a <= b
    ensures 0.0 <= f(a, x) <= g(b, x)
  {
  }

  /** What larger steps from a larger start lead to. */
  lemma {:induction false} RunningMonotone<T(!new)>(f: (real, T) -> real, g: (real, T) -> real, low: real,
      high: real, s: seq<T>)
    requires 0.0 <= low <= high && Dominated(f, g)
    ensures 0.0 <= Running(f, low, s) <= Running(g, high, s)
  {
    if s != [] {
      var n := |s| - 1;
      RunningMonotone(f, g, low, high, s[..n]);
      DominatedStep(f, g, Running(f, low, s[..n]), Running(g, high, s[..n]), s[n]);
    }
  }

  // ---------- rounding ----------

  function SumOf<A>(amount: A -> int, lines: seq<A>): int {
    if lines == [] then 0
    else
      var n := |lines| - 1;
      SumOf(amount, lines[..n]) + amount(lines[n])
  }

  /** The lines, in cents, are within half a cent each of an exact change. */
  predicate DriftWithin<A>(amount: A -> int, lines: seq<A>, change: real) {
    -(|lines| as real) <= 2.0 * (SumOf(amount, lines) as real - 100.0 * change) <= |lines| as real
  }

  /** A line is no line for no change, or one line rounding the change to the nearest cent. */
  predicate RoundsChange<A>(amount: A -> int, lines: seq<A>, change: real) {
    if lines == [] then change == 0.0
    else |lines| == 1 && -1.0 <= 2.0 * (amount(lines[0]) as real - 100.0 * change) <= 1.0
  }

  lemma DriftStep<A>(amount: A -> int, lines: seq<A>, more: seq<A>, change: real, extra: real)
    requires DriftWithin(amount, lines, change) && RoundsChange(amount, more, extra)
    ensures DriftWithin(amount, lines + more, change + extra)
  {
    if more == [] {
      assert lines + more == lines;
    } else {
      assert (lines + more)[..|lines|] == lines;
    }
  }

  /** If every line rounds its change, all of them together drift by half a cent a line. */
  lemma {:induction false} LinesDrift<T(!new), A>(
    step: (real, T) -> real, line: (T, real) -> seq<A>, amount: A -> int, start: real, s: seq<T>)
    requires forall x, total :: RoundsChange(amount, line(x, total), step(total, x) - total)
    ensures DriftWithin(amount, Lines(step, line, start, s), Running(step, start, s) - start)
  {
    if s != [] {
      var n := |s| - 1;
      LinesDrift(step, line, amount, start, s[..n]);
      var before, after := Running(step, start, s[..n]), Running(step, start, s);
      DriftStep(amount, Lines(step, line, start, s[..n]), line(s[n], before), before - start, after - before);
      assert before - start + (after - before) == after - start;
    }
  }
}
