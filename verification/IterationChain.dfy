// The durable workflow of one job: activity iterations grouped into runs that
// continue as new, and what the whole chain of runs amounts to.
module IterationChain {
  import opened Wrappers
  import opened PageWorkflows

  const ITERATIONS_PER_RUN: nat := 50
  const MAXIMUM_ITERATIONS: nat := 3_000
  const U32_MAX: nat := 0xFFFF_FFFF

  function SaturatingAdd(a: nat, b: nat): nat {
    if a + b > U32_MAX then U32_MAX else a + b
  }

  datatype RunInput = RunInput(nextIteration: nat, runNumber: nat)

  const FIRST := RunInput(1, 1)

  function LastIteration(r: RunInput): nat {
    var last := SaturatingAdd(r.nextIteration, ITERATIONS_PER_RUN - 1);
    if last < MAXIMUM_ITERATIONS then last else MAXIMUM_ITERATIONS
  }

  function NextRun(r: RunInput): Option<RunInput> {
    var next := SaturatingAdd(LastIteration(r), 1);
    if next <= MAXIMUM_ITERATIONS then Some(RunInput(next, SaturatingAdd(r.runNumber, 1))) else None
  }

  /** The check made when the input of a run is read back. */
  predicate ValidInput(r: RunInput) {
    && r.runNumber >= 1
    && (r.runNumber - 1) * ITERATIONS_PER_RUN <= U32_MAX
    && (r.runNumber - 1) * ITERATIONS_PER_RUN + 1 <= U32_MAX
    && r.nextIteration == (r.runNumber - 1) * ITERATIONS_PER_RUN + 1
    && 1 <= r.nextIteration <= MAXIMUM_ITERATIONS
  }

  /** There are sixty inputs that are accepted, one for each run. */
  lemma ValidInputMeans(r: RunInput)
    ensures ValidInput(r) <==> 1 <= r.runNumber <= 60 && r.nextIteration == 50 * r.runNumber - 49
  {
  }

  /** Every input a run hands to its successor is accepted there, it starts
      right after the last iteration of the run before, and only the run that
      ends at the overall limit has no successor. */
  lemma NextRunValid(r: RunInput)
    requires ValidInput(r)
    ensures r.nextIteration <= LastIteration(r) == r.runNumber * ITERATIONS_PER_RUN <= MAXIMUM_ITERATIONS
    ensures NextRun(r).None? <==> LastIteration(r) == MAXIMUM_ITERATIONS
    ensures NextRun(r).Some? ==>
              ValidInput(NextRun(r).value)
              && NextRun(r).value.nextIteration == LastIteration(r) + 1
              && NextRun(r).value.runNumber == r.runNumber + 1
  {
  }

  datatype ActivityResult = Reports(status: Status) | Fails

  datatype WorkflowEnd =
    | WorkflowFinished(status: Status, iterations: nat, runs: nat)
    | ActivityFailed(iteration: nat)
    | FinalizationFailed(iteration: nat)
    | IterationLimit
    | BadInput

  datatype RunEnd = Ended(end: WorkflowEnd) | ContinueAsNew(next: RunInput)

  predicate Finalizes(s: Status) {
    s == Status.Completed || s == Status.Partial
  }

  /** How the workflow ends when iteration i is the first not to report Running. */
  function EndAt(result: ActivityResult, i: nat, finalized: bool, runs: nat): WorkflowEnd {
    match result
    case Fails => ActivityFailed(i)
    case Reports(status) =>
      if Finalizes(status) && !finalized then FinalizationFailed(i) else WorkflowFinished(status, i, runs)
  }

  /** The first iteration from i up to `last` whose activity does not report Running. */
  function FirstStop(results: seq<ActivityResult>, i: nat, last: nat): (stop: Option<nat>)
    requires 1 <= i <= last + 1 && last <= |results|
    ensures stop.Some? ==> i <= stop.value <= last && results[stop.value - 1] != Reports(Status.Running)
    ensures forall k :: i - 1 <= k < (if stop.Some? then stop.value - 1 else last) ==> results[k] == Reports(Status.Running)
    decreases last + 1 - i
  {
    if i > last then None
    else if results[i - 1] != Reports(Status.Running) then Some(i)
    else FirstStop(results, i + 1, last)
  }

  /** One run: iterations until an activity stops the workflow or the range is used up. */
  method Run(input: RunInput, results: seq<ActivityResult>, finalized: bool) returns (r: RunEnd)
    requires 1 <= input.nextIteration <= MAXIMUM_ITERATIONS <= |results|
    ensures match FirstStop(results, input.nextIteration, LastIteration(input))
            case Some(i) => r == Ended(EndAt(results[i - 1], i, finalized, input.runNumber))
            case None => r == (match NextRun(input) case Some(next) => ContinueAsNew(next) case None => Ended(IterationLimit))
  {
    var iteration := input.nextIteration;
    while iteration <= LastIteration(input)
      invariant input.nextIteration <= iteration <= LastIteration(input) + 1
      invariant FirstStop(results, input.nextIteration, LastIteration(input))
             == FirstStop(results, iteration, LastIteration(input))
    {
      match results[iteration - 1] {
        case Fails => return Ended(ActivityFailed(iteration));
        case Reports(status) =>
          if status != Status.Running {
            if (status == Status.Completed || status == Status.Partial) && !finalized {
              return Ended(FinalizationFailed(iteration));
            }
            return Ended(WorkflowFinished(status, iteration, input.runNumber));
          }
      }
      iteration := iteration + 1;
    }
    match NextRun(input) {
      case Some(next) => return ContinueAsNew(next);
      case None => return Ended(IterationLimit);
    }
  }

  /** The chain of runs: each continuation is read back before it runs. */
  function Chain(input: RunInput, results: seq<ActivityResult>, finalized: bool): WorkflowEnd
    requires MAXIMUM_ITERATIONS <= |results|
    decreases if ValidInput(input) then MAXIMUM_ITERATIONS - input.nextIteration else 0
  {
    if !ValidInput(input) then BadInput
    else
      NextRunValid(input);
      match FirstStop(results, input.nextIteration, LastIteration(input))
      case Some(i) => EndAt(results[i - 1], i, finalized, input.runNumber)
      case None =>
        match NextRun(input)
        case Some(next) => Chain(next, results, finalized)
        case None => IterationLimit
  }

  lemma {:induction false} FirstStopSplits(results: seq<ActivityResult>, i: nat, mid: nat, last: nat)
    requires 1 <= i <= mid + 1 && mid <= last <= |results|
    ensures FirstStop(results, i, last)
         == if FirstStop(results, i, mid).Some? then FirstStop(results, i, mid) else FirstStop(results, mid + 1, last)
    decreases mid + 1 - i
  {
    if i <= mid && results[i - 1] == Reports(Status.Running) {
      FirstStopSplits(results, i + 1, mid, last);
    }
  }

  /** The run in which an iteration falls. */
  function RunOf(iteration: nat): (run: nat)
    requires iteration >= 1
    ensures (run - 1) * ITERATIONS_PER_RUN < iteration <= run * ITERATIONS_PER_RUN
  {
    (iteration - 1) / ITERATIONS_PER_RUN + 1
  }

  lemma RunOfIsTheOne(iteration: nat, run: nat)
    requires iteration >= 1 && run >= 1
    requires (run - 1) * ITERATIONS_PER_RUN < iteration <= run * ITERATIONS_PER_RUN
    ensures RunOf(iteration) == run
  {
  }

  /** The same workflow as one flat loop from iteration `from` to `limit`. */
  function Flat(from: nat, limit: nat, results: seq<ActivityResult>, finalized: bool): WorkflowEnd
    requires 1 <= from <= limit + 1 && limit <= |results|
  {
    match FirstStop(results, from, limit)
    case Some(i) => EndAt(results[i - 1], i, finalized, RunOf(i))
    case None => IterationLimit
  }

  lemma {:induction false} ChainFrom(input: RunInput, limit: nat, results: seq<ActivityResult>, finalized: bool)
    requires limit == MAXIMUM_ITERATIONS <= |results| && ValidInput(input)
    ensures Chain(input, results, finalized) == Flat(input.nextIteration, limit, results, finalized)
    decreases limit - input.nextIteration
  {
    var last := LastIteration(input);
    NextRunValid(input);
    FirstStopSplits(results, input.nextIteration, last, limit);
    var stop := FirstStop(results, input.nextIteration, last);
    if stop.Some? {
      RunOfIsTheOne(stop.value, input.runNumber);
    } else if NextRun(input).Some? {
      ChainFrom(NextRun(input).value, limit, results, finalized);
    } else {
      assert last == limit;
    }
  }

  /** The chain of runs does exactly what one loop over iterations 1 to 3000
      would: no iteration is repeated or skipped where runs meet, and the
      number of runs follows from the iteration that stopped. */
  lemma ChainIsOneLoop(first: RunInput, limit: nat, results: seq<ActivityResult>, finalized: bool)
    requires first == FIRST && limit == MAXIMUM_ITERATIONS <= |results|
    ensures Chain(first, results, finalized) == Flat(1, limit, results, finalized)
  {
    ChainFrom(first, limit, results, finalized);
  }

  /** The limit is reached exactly when every iteration reports Running. */
  lemma LimitMeansAllRunning(first: RunInput, limit: nat, results: seq<ActivityResult>, finalized: bool)
    requires first == FIRST && limit == MAXIMUM_ITERATIONS <= |results|
    ensures Chain(first, results, finalized) == IterationLimit
            <==> forall k :: 0 <= k < limit ==> results[k] == Reports(Status.Running)
  {
    ChainIsOneLoop(first, limit, results, finalized);
    FlatLimit(limit, results, finalized);
  }

  lemma {:induction false} FirstStopIs(results: seq<ActivityResult>, from: nat, i: nat, last: nat)
    requires 1 <= from <= i <= last <= |results|
    requires forall k :: from - 1 <= k < i - 1 ==> results[k] == Reports(Status.Running)
    requires results[i - 1] != Reports(Status.Running)
    ensures FirstStop(results, from, last) == Some(i)
    decreases i - from
  {
    if from < i {
      FirstStopIs(results, from + 1, i, last);
    }
  }

  /** When iteration i is the first not to report Running, a failed activity and
      a cancelled job end the workflow there; a job that is done, in full or in
      part, is finalized, and ends the workflow well when that succeeds. Fifty
      iterations make a run. */
  lemma HowItEnds(first: RunInput, limit: nat, results: seq<ActivityResult>, finalized: bool, i: nat)
    requires first == FIRST && limit == MAXIMUM_ITERATIONS <= |results| && 1 <= i <= limit
    requires forall k :: 0 <= k < i - 1 ==> results[k] == Reports(Status.Running)
    requires results[i - 1] != Reports(Status.Running)
    ensures Chain(first, results, finalized)
         == match results[i - 1]
            case Fails => ActivityFailed(i)
            case Reports(status) =>
              if status == Status.Cancelled || finalized then WorkflowFinished(status, i, (i + 49) / 50) else FinalizationFailed(i)
  {
    hide Chain, FirstStop;
    ChainIsOneLoop(first, limit, results, finalized);
    FirstStopIs(results, 1, i, limit);
    FiftyARun(i);
  }

  lemma FiftyARun(i: nat)
    requires i >= 1
    ensures RunOf(i) == (i + 49) / 50
  {
    RunOfIsTheOne(i, (i + 49) / 50);
  }

  lemma FlatLimit(limit: nat, results: seq<ActivityResult>, finalized: bool)
    requires limit <= |results|
    ensures Flat(1, limit, results, finalized) == IterationLimit
            <==> forall k :: 0 <= k < limit ==> results[k] == Reports(Status.Running)
  {
    var stop := FirstStop(results, 1, limit);
    if stop.Some? {
      assert results[stop.value - 1] != Reports(Status.Running);
    }
  }
}
