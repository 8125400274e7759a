/** The `illumina-updates` sub-command: for each Illumina component whose
    tracking records changed, look its data objects up in the store, and
    stop looking up a run after `skip_absent_runs` empty lookups while that
    run has never been found (the ingestion race between the warehouse and
    the store). */
module IlluminaUpdates {
  import opened LocateCommon

  type RunId = int

  /** An Illumina component: run, lane and optional tag index. */
  datatype Component = Component(idRun: RunId, position: int, tagIndex: Option<int>)

  /** The parsed `--skip-absent-runs` value: None is what argparse stores for
      a bare flag; the command line accepts only 1..100 otherwise. */
  type SkipLimit = Option<nat>

  /** Python truthiness of `skip_absent_runs`: None and 0 are falsy. */
  predicate SkippingEnabled(skip: SkipLimit)
  {
    skip.Some? && skip.value != 0
  }

  /** Everything the loop accumulates: the two per-run counter maps, the item
      and error counts, what was printed, and (instrumentation only) the
      number of store queries issued per run. */
  datatype Tally = Tally(
    attempts: map<RunId, nat>,
    successes: map<RunId, nat>,
    numProcessed: nat,
    numErrors: nat,
    printed: seq<Path>,
    queries: map<RunId, nat>)

  const Start := Tally(map[], map[], 0, 0, [], map[])

  /** The guard checked before querying: skipping is on, the run has never
      been found and it has had exactly `skip_absent_runs` empty lookups. */
  predicate Skips(skip: SkipLimit, t: Tally, run: RunId)
  {
    SkippingEnabled(skip) && Get(t.successes, run) == 0 && Get(t.attempts, run) == skip.value
  }

  /** One iteration of the loop for component `c`, where `answer` is what the
      store replies if it is queried for `c`. */
  function Step(skip: SkipLimit, t: Tally, c: Component, answer: QueryResult): (r: Tally)
    ensures r.numProcessed == t.numProcessed + 1
    ensures t.numErrors <= r.numErrors <= t.numErrors + 1
    ensures t.printed <= r.printed
  {
    var t1 := t.(numProcessed := t.numProcessed + 1);
    if Skips(skip, t, c.idRun) then t1
    else
      var t2 := t1.(queries := Bump(t.queries, c.idRun));
      match answer
      case Raised => t2.(numErrors := t.numErrors + 1)
      case Listed(result) =>
        if |result| == 0 then t2.(attempts := Bump(t.attempts, c.idRun))
        else t2.(successes := Bump(t.successes, c.idRun), printed := t.printed + result)
  }

  /** The loop over the remaining components, from tally `t`. */
  function RunFrom(skip: SkipLimit, t: Tally, comps: seq<Component>, answers: seq<QueryResult>): (r: Tally)
    requires |comps| == |answers|
    ensures r.numErrors <= t.numErrors + |comps|
    decreases |comps|
  {
    if |comps| == 0 then t
    else RunFrom(skip, Step(skip, t, comps[0], answers[0]), comps[1..], answers[1..])
  }

  /** The number of components of run `run`. */
  function Occurrences(comps: seq<Component>, run: RunId): (n: nat)
    ensures n <= |comps|
  {
    if |comps| == 0 then 0
    else (if comps[0].idRun == run then 1 else 0) + Occurrences(comps[1..], run)
  }

  function Min(a: nat, b: nat): nat
  {
    if a <= b then a else b
  }

  /** While skipping is on, a run that has never been found has had at most
      `skip_absent_runs` empty lookups. */
  ghost predicate WithinLimit(skip: SkipLimit, t: Tally)
  {
    SkippingEnabled(skip) ==>
      forall run :: Get(t.successes, run) == 0 ==> Get(t.attempts, run) <= skip.value
  }

  // ---------------------------------------------------------------------------
  // One iteration

  /** An empty reply adds one attempt and nothing else to the run; a non-empty
      reply adds one success and prints exactly the reply; neither counter
      ever decreases, for any run. */
  lemma CounterUpdates(skip: SkipLimit, t: Tally, c: Component, answer: QueryResult)
    ensures var r := Step(skip, t, c, answer);
      var queried := !Skips(skip, t, c.idRun);
      && Get(r.attempts, c.idRun) == Get(t.attempts, c.idRun)
           + (if queried && answer == Listed([]) then 1 else 0)
      && Get(r.successes, c.idRun) == Get(t.successes, c.idRun)
           + (if queried && answer.Listed? && |answer.paths| > 0 then 1 else 0)
      && r.printed == t.printed
           + (if queried && answer.Listed? then answer.paths else [])
      && (forall run :: Get(r.attempts, run) >= Get(t.attempts, run))
      && (forall run :: Get(r.successes, run) >= Get(t.successes, run))
  {
  }

  /** An exception from the query is one error and leaves both counters and
      the output as they were; nothing else is ever an error. */
  lemma QueryException(skip: SkipLimit, t: Tally, c: Component, answer: QueryResult)
    ensures var r := Step(skip, t, c, answer);
      && (r.numErrors == t.numErrors + 1 <==> !Skips(skip, t, c.idRun) && answer.Raised?)
      && (r.numErrors == t.numErrors <==> Skips(skip, t, c.idRun) || !answer.Raised?)
      && (answer.Raised? ==> r.attempts == t.attempts && r.successes == t.successes && r.printed == t.printed)
  {
  }

  /** A skipped component issues no query, prints nothing and is no error:
      only the item count moves, whatever the store would have replied. */
  lemma SkipIsInert(skip: SkipLimit, t: Tally, c: Component, answer: QueryResult)
    requires Skips(skip, t, c.idRun)
    ensures Step(skip, t, c, answer) == t.(numProcessed := t.numProcessed + 1)
  {
  }

  /** Counters are keyed by run: a component of one run changes nothing that
      belongs to another run, in particular not whether that run is skipped. */
  lemma OtherRunsUntouched(skip: SkipLimit, t: Tally, c: Component, answer: QueryResult, run: RunId)
    requires run != c.idRun
    ensures var r := Step(skip, t, c, answer);
      && Get(r.attempts, run) == Get(t.attempts, run)
      && Get(r.successes, run) == Get(t.successes, run)
      && Get(r.queries, run) == Get(t.queries, run)
      && (Skips(skip, r, run) <==> Skips(skip, t, run))
  {
  }

  /** A falsy `skip_absent_runs` never skips. */
  lemma DisabledNeverSkips(skip: SkipLimit, t: Tally, run: RunId)
    requires !SkippingEnabled(skip)
    ensures !Skips(skip, t, run)
  {
  }

  /** One iteration keeps the bound on empty lookups of runs never found:
      a run at the limit is skipped, so its attempts cannot pass it. */
  lemma StepWithinLimit(skip: SkipLimit, t: Tally, c: Component, answer: QueryResult)
    requires WithinLimit(skip, t)
    ensures WithinLimit(skip, Step(skip, t, c, answer))
  {
  }

  // ---------------------------------------------------------------------------
  // The whole loop

  /** Every enumerated component is counted as processed, including the ones
      that are skipped or whose query raises. */
  lemma {:induction false} ProcessedCount(skip: SkipLimit, t: Tally, comps: seq<Component>, answers: seq<QueryResult>)
    requires |comps| == |answers|
    ensures RunFrom(skip, t, comps, answers).numProcessed == t.numProcessed + |comps|
    decreases |comps|
  {
    if |comps| > 0 {
      ProcessedCount(skip, Step(skip, t, comps[0], answers[0]), comps[1..], answers[1..]);
    }
  }

  /** No counter of any run and neither global count ever decreases, and the
      output only grows at its end. */
  lemma {:induction false} NeverDecreases(skip: SkipLimit, t: Tally, comps: seq<Component>, answers: seq<QueryResult>)
    requires |comps| == |answers|
    ensures var f := RunFrom(skip, t, comps, answers);
      && (forall run :: Get(f.attempts, run) >= Get(t.attempts, run))
      && (forall run :: Get(f.successes, run) >= Get(t.successes, run))
      && (forall run :: Get(f.queries, run) >= Get(t.queries, run))
      && f.numErrors >= t.numErrors
      && t.printed <= f.printed
    decreases |comps|
  {
    if |comps| > 0 {
      var t' := Step(skip, t, comps[0], answers[0]);
      CounterUpdates(skip, t, comps[0], answers[0]);
      NeverDecreases(skip, t', comps[1..], answers[1..]);
    }
  }

  /** Errors are exactly the exceptions of the queries actually issued: at most
      one per raising reply, and exactly one per raising reply when skipping
      is off. */
  lemma {:induction false} ErrorAccounting(skip: SkipLimit, t: Tally, comps: seq<Component>, answers: seq<QueryResult>)
    requires |comps| == |answers|
    ensures var f := RunFrom(skip, t, comps, answers);
      && f.numErrors <= t.numErrors + CountRaised(answers)
      && (!SkippingEnabled(skip) ==> f.numErrors == t.numErrors + CountRaised(answers))
    decreases |comps|
  {
    if |comps| > 0 {
      var t' := Step(skip, t, comps[0], answers[0]);
      ErrorAccounting(skip, t', comps[1..], answers[1..]);
    }
  }

  /** The bound on empty lookups of runs never found is kept by the loop. */
  lemma {:induction false} LimitKept(skip: SkipLimit, t: Tally, comps: seq<Component>, answers: seq<QueryResult>)
    requires |comps| == |answers|
    requires WithinLimit(skip, t)
    ensures WithinLimit(skip, RunFrom(skip, t, comps, answers))
    decreases |comps|
  {
    if |comps| > 0 {
      StepWithinLimit(skip, t, comps[0], answers[0]);
      LimitKept(skip, Step(skip, t, comps[0], answers[0]), comps[1..], answers[1..]);
    }
  }

  /** A run whose every lookup returns nothing: each of its components up to
      the limit is queried once and counted as an attempt, and every later one
      is skipped, so it is queried exactly min(limit, components) times beyond
      what it had (every time when skipping is off). */
  lemma {:induction false} UnresolvedRunQueries(skip: SkipLimit, t: Tally, comps: seq<Component>, answers: seq<QueryResult>, run: RunId)
    requires |comps| == |answers|
    requires forall i :: 0 <= i < |comps| && comps[i].idRun == run ==> answers[i] == Listed([])
    requires Get(t.successes, run) == 0
    requires Get(t.queries, run) == Get(t.attempts, run)
    requires SkippingEnabled(skip) ==> Get(t.attempts, run) <= skip.value
    ensures var f := RunFrom(skip, t, comps, answers);
      && Get(f.successes, run) == 0
      && Get(f.queries, run) == Get(f.attempts, run)
      && (SkippingEnabled(skip) ==>
            Get(f.attempts, run) == Min(skip.value, Get(t.attempts, run) + Occurrences(comps, run)))
      && (!SkippingEnabled(skip) ==>
            Get(f.attempts, run) == Get(t.attempts, run) + Occurrences(comps, run))
    decreases |comps|
  {
    if |comps| > 0 {
      var c := comps[0];
      var t' := Step(skip, t, c, answers[0]);
      assert forall i :: 0 <= i < |comps[1..]| && comps[1..][i].idRun == run ==> answers[1..][i] == Listed([]) by {
        forall i | 0 <= i < |comps[1..]| && comps[1..][i].idRun == run
          ensures answers[1..][i] == Listed([])
        {
          assert comps[1..][i] == comps[i + 1];
        }
      }
      if c.idRun == run {
        assert answers[0] == Listed([]);
        if Skips(skip, t, run) {
          assert t'.attempts == t.attempts;
        } else {
          assert Get(t'.attempts, run) == Get(t.attempts, run) + 1;
          if SkippingEnabled(skip) {
            assert Get(t.attempts, run) < skip.value;
          }
        }
      } else {
        OtherRunsUntouched(skip, t, c, answers[0], run);
      }
      UnresolvedRunQueries(skip, t', comps[1..], answers[1..], run);
    }
  }

  /** Once a run is skipped it stays skipped to the end of the invocation and
      none of its later components is queried. */
  lemma {:induction false} SkippedRunStaysSkipped(skip: SkipLimit, t: Tally, comps: seq<Component>, answers: seq<QueryResult>, run: RunId)
    requires |comps| == |answers|
    requires Skips(skip, t, run)
    ensures var f := RunFrom(skip, t, comps, answers);
      && Skips(skip, f, run)
      && Get(f.queries, run) == Get(t.queries, run)
      && Get(f.attempts, run) == Get(t.attempts, run)
      && Get(f.successes, run) == Get(t.successes, run)
    decreases |comps|
  {
    if |comps| > 0 {
      var t' := Step(skip, t, comps[0], answers[0]);
      if comps[0].idRun != run {
        OtherRunsUntouched(skip, t, comps[0], answers[0], run);
      }
      SkippedRunStaysSkipped(skip, t', comps[1..], answers[1..], run);
    }
  }

  /** A run that has been found once is never skipped again in the
      invocation: every one of its later components is queried. */
  lemma {:induction false} FoundRunNeverSkipped(skip: SkipLimit, t: Tally, comps: seq<Component>, answers: seq<QueryResult>, run: RunId)
    requires |comps| == |answers|
    requires Get(t.successes, run) > 0
    ensures var f := RunFrom(skip, t, comps, answers);
      && Get(f.successes, run) > 0
      && !Skips(skip, f, run)
      && Get(f.queries, run) == Get(t.queries, run) + Occurrences(comps, run)
    decreases |comps|
  {
    if |comps| > 0 {
      var t' := Step(skip, t, comps[0], answers[0]);
      if comps[0].idRun != run {
        OtherRunsUntouched(skip, t, comps[0], answers[0], run);
      } else {
        CounterUpdates(skip, t, comps[0], answers[0]);
      }
      FoundRunNeverSkipped(skip, t', comps[1..], answers[1..], run);
    }
  }

  /** With skipping off, every component is queried. */
  lemma {:induction false} DisabledQueriesAll(skip: SkipLimit, t: Tally, comps: seq<Component>, answers: seq<QueryResult>, run: RunId)
    requires |comps| == |answers|
    requires !SkippingEnabled(skip)
    ensures Get(RunFrom(skip, t, comps, answers).queries, run) == Get(t.queries, run) + Occurrences(comps, run)
    decreases |comps|
  {
    if |comps| > 0 {
      var t' := Step(skip, t, comps[0], answers[0]);
      if comps[0].idRun != run {
        OtherRunsUntouched(skip, t, comps[0], answers[0], run);
      }
      DisabledQueriesAll(skip, t', comps[1..], answers[1..], run);
    }
  }

  /** A run with no component in the sequence keeps its counters, so other
      runs' failures can never make it skipped. */
  lemma {:induction false} AbsentRunUntouched(skip: SkipLimit, t: Tally, comps: seq<Component>, answers: seq<QueryResult>, run: RunId)
    requires |comps| == |answers|
    requires Occurrences(comps, run) == 0
    ensures var f := RunFrom(skip, t, comps, answers);
      && Get(f.attempts, run) == Get(t.attempts, run)
      && Get(f.successes, run) == Get(t.successes, run)
      && Get(f.queries, run) == Get(t.queries, run)
      && (Skips(skip, f, run) <==> Skips(skip, t, run))
    decreases |comps|
  {
    if |comps| > 0 {
      OtherRunsUntouched(skip, t, comps[0], answers[0], run);
      AbsentRunUntouched(skip, Step(skip, t, comps[0], answers[0]), comps[1..], answers[1..], run);
    }
  }

  /** Everything printed was returned by a store query. */
  lemma {:induction false} PrintedFromReplies(skip: SkipLimit, t: Tally, comps: seq<Component>, answers: seq<QueryResult>, p: Path)
    requires |comps| == |answers|
    requires p in RunFrom(skip, t, comps, answers).printed
    ensures p in t.printed || exists i :: 0 <= i < |answers| && answers[i].Listed? && p in answers[i].paths
    decreases |comps|
  {
    if |comps| > 0 {
      var t' := Step(skip, t, comps[0], answers[0]);
      PrintedFromReplies(skip, t', comps[1..], answers[1..], p);
      if p in t'.printed && p !in t.printed {
        CounterUpdates(skip, t, comps[0], answers[0]);
        assert answers[0].Listed? && p in answers[0].paths;
      } else if p !in t'.printed {
        var i :| 0 <= i < |answers[1..]| && answers[1..][i].Listed? && p in answers[1..][i].paths;
        assert answers[i + 1] == answers[1..][i];
      }
    }
  }

  /** From process start: a run never found in the store is queried at most
      `skip_absent_runs` times, and exactly as often as it has components
      when skipping is off. */
  lemma QueryBound(skip: SkipLimit, comps: seq<Component>, answers: seq<QueryResult>, run: RunId)
    requires |comps| == |answers|
    requires forall i :: 0 <= i < |comps| && comps[i].idRun == run ==> answers[i] == Listed([])
    ensures var f := RunFrom(skip, Start, comps, answers);
      && (SkippingEnabled(skip) ==> Get(f.queries, run) == Min(skip.value, Occurrences(comps, run)) <= skip.value)
      && (!SkippingEnabled(skip) ==> Get(f.queries, run) == Occurrences(comps, run))
  {
    UnresolvedRunQueries(skip, Start, comps, answers, run);
  }

  // ---------------------------------------------------------------------------
  // The imperative locator

  /** The state `illumina_updates` keeps while it walks the components. */
  class Locator {
    const skipAbsentRuns: SkipLimit
    var attemptsPerRun: map<RunId, nat>
    var successPerRun: map<RunId, nat>
    var numProcessed: nat
    var numErrors: nat
    var printed: seq<Path>
    ghost var queriesPerRun: map<RunId, nat>

    ghost function State(): Tally
      reads this
    {
      Tally(attemptsPerRun, successPerRun, numProcessed, numErrors, printed, queriesPerRun)
    }

    constructor (skip: SkipLimit)
      ensures skipAbsentRuns == skip && State() == Start
    {
      skipAbsentRuns := skip;
      attemptsPerRun, successPerRun := map[], map[];
      numProcessed, numErrors := 0, 0;
      printed := [];
      queriesPerRun := map[];
    }

    /** One loop iteration for component `c`; `answer` is the store's reply
        should it be queried. */
    method Process(c: Component, answer: QueryResult)
      modifies this
      ensures State() == Step(skipAbsentRuns, old(State()), c, answer)
    {
      ghost var before := State();
      numProcessed := numProcessed + 1;
      if skipAbsentRuns.Some? && skipAbsentRuns.value != 0
        && Get(successPerRun, c.idRun) == 0
        && Get(attemptsPerRun, c.idRun) == skipAbsentRuns.value
      {
        assert Skips(skipAbsentRuns, before, c.idRun);
        return;
      }
      assert !Skips(skipAbsentRuns, before, c.idRun);
      queriesPerRun := Bump(queriesPerRun, c.idRun);
      match answer {
        case Raised =>
          numErrors := numErrors + 1;
        case Listed(result) =>
          if |result| == 0 {
            attemptsPerRun := Bump(attemptsPerRun, c.idRun);
          } else {
            successPerRun := Bump(successPerRun, c.idRun);
            var out := printed;
            for k := 0 to |result|
              invariant out == before.printed + result[..k]
            {
              out := out + [result[k]];
            }
            assert result[..|result|] == result;
            printed := out;
          }
      }
    }
  }

  /** `illumina_updates`: process every component in order and report the
      counts, the printed paths and the exit status. */
  method IlluminaUpdatesCommand(skip: SkipLimit, comps: seq<Component>, answers: seq<QueryResult>)
    returns (numProcessed: nat, numErrors: nat, printed: seq<Path>, status: nat, ghost queries: map<RunId, nat>)
    requires |comps| == |answers|
    ensures numProcessed == |comps|
    ensures status == 1 <==> numErrors > 0
    ensures status == 0 <==> numErrors == 0
    ensures numErrors <= CountRaised(answers)
    ensures !SkippingEnabled(skip) ==> numErrors == CountRaised(answers)
    ensures numErrors == RunFrom(skip, Start, comps, answers).numErrors
    ensures printed == RunFrom(skip, Start, comps, answers).printed
    ensures queries == RunFrom(skip, Start, comps, answers).queries
  {
    var loc := new Locator(skip);
    var i := 0;
    while i < |comps|
      invariant 0 <= i <= |comps|
      invariant loc.skipAbsentRuns == skip
      invariant RunFrom(skip, loc.State(), comps[i..], answers[i..]) == RunFrom(skip, Start, comps, answers)
    {
      assert comps[i..][1..] == comps[i + 1..] && answers[i..][1..] == answers[i + 1..];
      loc.Process(comps[i], answers[i]);
      i := i + 1;
    }
    assert comps[i..] == [] && answers[i..] == [];
    ProcessedCount(skip, Start, comps, answers);
    ErrorAccounting(skip, Start, comps, answers);
    numProcessed, numErrors, printed := loc.numProcessed, loc.numErrors, loc.printed;
    queries := loc.queriesPerRun;
    status := ExitStatus(numErrors);
  }
}
