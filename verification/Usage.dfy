/** Token accounting: the loop, the daemon and the terminal client each fold step usage into a total. */
module Usage {

  datatype Usage = Usage(
    input: int,
    output: int,
    cacheRead: int,
    cacheWrite: int,
    total: int,
    context: int,
    window: int)

  const ZERO := Usage(0, 0, 0, 0, 0, 0, 0)

  predicate NonNegative(u: Usage) {
    && 0 <= u.input && 0 <= u.output && 0 <= u.cacheRead && 0 <= u.cacheWrite
    && 0 <= u.total && 0 <= u.context && 0 <= u.window
  }

  predicate AllNonNegative(steps: seq<Usage>) {
    forall i :: 0 <= i < |steps| ==> NonNegative(steps[i])
  }

  predicate Present(u: Usage) {
    u != ZERO
  }

  function Reported(value: int, u: Usage): int {
    if value == 0 then u.input + u.output else value
  }

  function Add(sum: Usage, u: Usage): Usage {
    Usage(
      sum.input + u.input,
      sum.output + u.output,
      sum.cacheRead + u.cacheRead,
      sum.cacheWrite + u.cacheWrite,
      sum.total + Reported(u.total, u),
      if Reported(u.context, u) != 0 then Reported(u.context, u) else sum.context,
      if u.window != 0 then u.window else sum.window)
  }

  /** The accumulation statement by statement, as all three copies write it. */
  method Accumulate(sum: Usage, current: Usage) returns (total: Usage)
    ensures total == Add(sum, current)
    ensures total.input == sum.input + current.input && total.output == sum.output + current.output
    ensures total.cacheRead == sum.cacheRead + current.cacheRead
    ensures total.cacheWrite == sum.cacheWrite + current.cacheWrite
    ensures total.total == sum.total + if current.total == 0 then current.input + current.output else current.total
    ensures total.context ==
            if current.context != 0 then current.context
            else if current.input + current.output != 0 then current.input + current.output
            else sum.context
    ensures total.window == if current.window == 0 then sum.window else current.window
  {
    total := sum.(input := sum.input + current.input);
    total := total.(output := total.output + current.output);
    total := total.(cacheRead := total.cacheRead + current.cacheRead);
    total := total.(cacheWrite := total.cacheWrite + current.cacheWrite);
    var currentTotal := current.total;
    if currentTotal == 0 {
      currentTotal := current.input + current.output;
    }
    total := total.(total := total.total + currentTotal);
    var contextTokens := current.context;
    if contextTokens == 0 {
      contextTokens := current.input + current.output;
    }
    if contextTokens != 0 {
      total := total.(context := contextTokens);
    }
    if current.window != 0 {
      total := total.(window := current.window);
    }
  }

  /** The loop and the client fold every report. */
  function Fold(start: Usage, steps: seq<Usage>): Usage {
    if steps == [] then start else Add(Fold(start, steps[..|steps| - 1]), steps[|steps| - 1])
  }

  /** The daemon skips reports that are zero everywhere. */
  function DaemonFold(start: Usage, steps: seq<Usage>): Usage {
    if steps == [] then start else
      var before, step := DaemonFold(start, steps[..|steps| - 1]), steps[|steps| - 1];
      if Present(step) then Add(before, step) else before
  }

  function Sum(steps: seq<Usage>, field: Usage -> int): int {
    if steps == [] then 0 else Sum(steps[..|steps| - 1], field) + field(steps[|steps| - 1])
  }

  function LastNonZero(start: int, steps: seq<Usage>, field: Usage -> int): int {
    if steps == [] then start
    else if field(steps[|steps| - 1]) != 0 then field(steps[|steps| - 1])
    else LastNonZero(start, steps[..|steps| - 1], field)
  }

  /** What a fold means, field by field. */
  function Summary(start: Usage, steps: seq<Usage>): Usage {
    Usage(
      start.input + Sum(steps, (u: Usage) => u.input),
      start.output + Sum(steps, (u: Usage) => u.output),
      start.cacheRead + Sum(steps, (u: Usage) => u.cacheRead),
      start.cacheWrite + Sum(steps, (u: Usage) => u.cacheWrite),
      start.total + Sum(steps, (u: Usage) => if u.total == 0 then u.input + u.output else u.total),
      LastNonZero(start.context, steps, (u: Usage) => if u.context == 0 then u.input + u.output else u.context),
      LastNonZero(start.window, steps, (u: Usage) => u.window))
  }

  lemma {:induction false} FoldIsSummary(start: Usage, steps: seq<Usage>)
    ensures Fold(start, steps) == Summary(start, steps)
  {
    if steps != [] {
      FoldIsSummary(start, steps[..|steps| - 1]);
    }
  }

  lemma {:induction false} DaemonAgrees(start: Usage, steps: seq<Usage>)
    ensures DaemonFold(start, steps) == Fold(start, steps)
  {
    if steps != [] {
      DaemonAgrees(start, steps[..|steps| - 1]);
      assert Add(Fold(start, steps[..|steps| - 1]), ZERO) == Fold(start, steps[..|steps| - 1]);
    }
  }

  lemma FoldOneMore(start: Usage, steps: seq<Usage>, u: Usage)
    ensures Fold(start, steps + [u]) == Add(Fold(start, steps), u)
  {
    assert (steps + [u])[..|steps|] == steps;
  }

  /** A fold onto any start, from the fold onto nothing: counters shift, a missing context or window is the start's. */
  lemma {:induction false} FoldFromStart(start: Usage, steps: seq<Usage>)
    ensures
      var t := Fold(ZERO, steps);
      Fold(start, steps) == Usage(
        start.input + t.input, start.output + t.output, start.cacheRead + t.cacheRead, start.cacheWrite + t.cacheWrite,
        start.total + t.total, if t.context != 0 then t.context else start.context,
        if t.window != 0 then t.window else start.window)
  {
    if steps != [] {
      FoldFromStart(start, steps[..|steps| - 1]);
    }
  }

  /** A returned total that is read back as it was meant: no count of zero stands for input plus output by mistake. */
  predicate AddsOnce(start: Usage, t: Usage) {
    && (t.total != 0 || t.input + t.output == 0)
    && (t.context != 0 || t.input + t.output == 0 || t.input + t.output == start.context)
  }

  /** Folding each step onto the thread is adding the run's returned total once, exactly under this condition. */
  lemma FoldIsOneAdditionIff(start: Usage, steps: seq<Usage>)
    ensures Fold(start, steps) == Add(start, Fold(ZERO, steps)) <==> AddsOnce(start, Fold(ZERO, steps))
  {
    FoldFromStart(start, steps);
  }

  lemma {:induction false} NonNegativeFold(steps: seq<Usage>)
    requires AllNonNegative(steps)
    ensures
      var t := Fold(ZERO, steps);
      NonNegative(t) && (t.total == 0 || t.context == 0 ==> t.input + t.output == 0)
  {
    if steps != [] {
      NonNegativeFold(steps[..|steps| - 1]);
    }
  }

  /** In particular for non-negative counters. */
  lemma FoldIsOneAddition(start: Usage, steps: seq<Usage>)
    requires AllNonNegative(steps)
    ensures Fold(start, steps) == Add(start, Fold(ZERO, steps))
  {
    NonNegativeFold(steps);
    FoldIsOneAdditionIff(start, steps);
  }

  lemma FoldTwo(u: Usage, v: Usage)
    ensures Fold(ZERO, [u, v]) == Add(Add(ZERO, u), v)
  {
    assert [u] + [v] == [u, v] && [] + [u] == [u];
    FoldOneMore(ZERO, [], u);
    FoldOneMore(ZERO, [u], v);
  }

  /** Two totals that cancel while the inputs do not make the law fail. */
  lemma CancellingTotalsBreakIt(u: Usage, v: Usage)
    requires u.total != 0 && u.total + v.total == 0 && u.input + u.output + v.input + v.output != 0
    ensures Fold(ZERO, [u, v]) != Add(ZERO, Fold(ZERO, [u, v])) && !AddsOnce(ZERO, Fold(ZERO, [u, v]))
  {
    FoldTwo(u, v);
  }

  /** Such an input. */
  lemma NegativeTotalsBreakIt()
    ensures
      var u, v := Usage(5, 0, 0, 0, 1, 1, 0), Usage(0, 0, 0, 0, -1, 0, 0);
      Fold(ZERO, [u, v]) != Add(ZERO, Fold(ZERO, [u, v]))
  {
    CancellingTotalsBreakIt(Usage(5, 0, 0, 0, 1, 1, 0), Usage(0, 0, 0, 0, -1, 0, 0));
  }
}
