/** How the `--skip-absent-runs` option of `illumina-updates` becomes the
    limit the locator uses. The option is declared with an optional argument
    and no value for the argument-less form, so the bare flag stores None,
    which switches skipping off; the usage text shows the bare flag as the
    way to switch it on. `ParseAsWritten` is the declaration as it stands,
    `ParseIntended` gives the bare flag the documented default. */
module SkipAbsentRuns {
  import opened LocateCommon
  import opened IlluminaUpdates

  /** How the option appears on the command line. */
  datatype SkipArg = Omitted | BareFlag | Given(n: int)

  /** The parsed value, or a usage error for an argument out of range. */
  datatype Parsed = Accepted(skip: SkipLimit) | Rejected

  /** The documented default number of attempts. */
  const DefaultAttempts: nat := 10

  /** The range check of the option's converter, 1 to 100 inclusive. */
  predicate InRange(n: int)
  {
    1 <= n <= 100
  }

  /** The option as declared: omitted gives the default, the bare flag gives
      None, an argument must be in range. */
  function ParseAsWritten(a: SkipArg): (r: Parsed)
    ensures a.Omitted? ==> r == Accepted(Some(DefaultAttempts))
    ensures a.BareFlag? ==> r == Accepted(None) && !SkippingEnabled(r.skip)
    ensures a.Given? ==> (r.Accepted? <==> InRange(a.n))
    ensures a.Given? && r.Accepted? ==> r.skip == Some(a.n)
  {
    match a
    case Omitted => Accepted(Some(DefaultAttempts))
    case BareFlag => Accepted(None)
    case Given(n) => if InRange(n) then Accepted(Some(n)) else Rejected
  }

  /** The option as documented: the bare flag means the default. */
  function ParseIntended(a: SkipArg): (r: Parsed)
    ensures r.Accepted? ==> SkippingEnabled(r.skip) && InRange(r.skip.value)
    ensures r.Rejected? <==> a.Given? && !InRange(a.n)
    ensures a.BareFlag? ==> r == Accepted(Some(DefaultAttempts))
    ensures !a.BareFlag? ==> r == ParseAsWritten(a)
  {
    match a
    case Omitted => Accepted(Some(DefaultAttempts))
    case BareFlag => Accepted(Some(DefaultAttempts))
    case Given(n) => if InRange(n) then Accepted(Some(n)) else Rejected
  }

  /** A sequence of components that all belong to `run` has that many
      components of `run`. */
  lemma {:induction false} OccurrencesOfOneRun(comps: seq<Component>, run: RunId)
    requires forall i :: 0 <= i < |comps| ==> comps[i].idRun == run
    ensures Occurrences(comps, run) == |comps|
  {
    if |comps| > 0 {
      assert forall i :: 0 <= i < |comps[1..]| ==> comps[1..][i] == comps[i + 1];
      OccurrencesOfOneRun(comps[1..], run);
    }
  }

  /** As written: eleven lanes of one run that is never found in the store,
      run with the bare flag, are all queried, although the documented limit
      is ten. */
  lemma BareFlagQueriesPastLimit()
    ensures var comps := seq(11, i => Component(1, i + 1, None));
      var answers := seq(11, i => Listed([]));
      && ParseAsWritten(BareFlag) == Accepted(None)
      && Get(RunFrom(None, Start, comps, answers).queries, 1) == 11
      && Get(RunFrom(Some(DefaultAttempts), Start, comps, answers).queries, 1) == 10
  {
    var comps := seq(11, i => Component(1, i + 1, None));
    var answers := seq(11, i => Listed([]));
    OccurrencesOfOneRun(comps, 1);
    QueryBound(None, comps, answers, 1);
    QueryBound(Some(DefaultAttempts), comps, answers, 1);
  }

  /** As written, in general: with the bare flag a run never found is queried
      once per component, without bound. */
  lemma BareFlagNeverSkips(comps: seq<Component>, answers: seq<QueryResult>, run: RunId)
    requires |comps| == |answers|
    requires forall i :: 0 <= i < |comps| && comps[i].idRun == run ==> answers[i] == Listed([])
    ensures ParseAsWritten(BareFlag).Accepted?
    ensures Get(RunFrom(ParseAsWritten(BareFlag).skip, Start, comps, answers).queries, run)
            == Occurrences(comps, run)
  {
    QueryBound(None, comps, answers, run);
  }

  /** As intended: every accepted command line bounds the queries of a run
      never found by the parsed limit, which is at most 100. */
  lemma IntendedBoundsQueries(a: SkipArg, comps: seq<Component>, answers: seq<QueryResult>, run: RunId)
    requires ParseIntended(a).Accepted?
    requires |comps| == |answers|
    requires forall i :: 0 <= i < |comps| && comps[i].idRun == run ==> answers[i] == Listed([])
    ensures var skip := ParseIntended(a).skip;
      Get(RunFrom(skip, Start, comps, answers).queries, run) <= skip.value <= 100
  {
    QueryBound(ParseIntended(a).skip, comps, answers, run);
  }
}
