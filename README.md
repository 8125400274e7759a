# locate-data-objects: a Dafny model of the component-to-store lookup loops

`locate-data-objects` finds the data objects and collections in an iRODS
store that belong to records changed in the ML warehouse. Each sub-command
walks a sequence of warehouse items and looks each one up in the store,
unless it skips the item. It prints the paths found and counts the items
processed and the errors. The exit status is 1 when there was an error.

- `illumina-updates`: at most one query per Illumina component (run, lane,
  tag index), and none for a skipped component. Two per-run counters, empty lookups ("attempts") and non-empty
  lookups ("successes"), drive a skip rule. A run never found, with
  `skip_absent_runs` empty lookups behind it, is not queried again.
- `consent-withdrawn`: a sample with no LIMS id is an error and is not
  looked up. For a sample with an id there is a data-object query. Unless
  that raises, a collection query follows, then one recursive walk per
  matched collection, stopping at the first walk that raises. The data
  objects found directly and those inside the collections are printed.
- `ont-updates`: one collection query per ONT component. The matched run collections
  are printed as they are, or replaced by their barcode sub-collections when
  tags are reported and the component has a tag identifier.

The warehouse and the store are not modelled. Each command takes the
enumerated items as a sequence, plus a second sequence of the same length
holding the store's reply for each item. Reply `i` is what the store would
return if item `i` were looked up; items that are skipped ignore theirs.
For a consent-withdrawn sample the reply covers both queries and the walks.
Because replies are per item and not per key, the store may change between
two lookups of the same run, which is the ingestion race the skip rule is
for. A reply is `Listed(paths)` (empty when the Python result is falsy) or
`Raised` (the query threw). Barcode expansion is a function parameter.

Files, one module each:

- `locate_common.dfy` (`LocateCommon`): paths, query replies, the
  `defaultdict(int)` reads and increments, the exit status.
- `illumina_updates.dfy` (`IlluminaUpdates`): the per-item step function
  `Step` and the loop as a fold `RunFrom`, with lemmas about both. The
  `Locator` class holds the two counter maps, the counts, the printed
  output and a ghost per-run query count. Its `Process` method is proved
  equal to `Step`. `IlluminaUpdatesCommand` loops over the components and
  is proved equal to `RunFrom`.
- `consent_withdrawn.dfy` (`ConsentWithdrawn`) and `ont_updates.dfy`
  (`OntUpdates`): the same shape, a `Step`, a `RunFrom` and a command
  method whose loop keeps the counters in local variables, as the source
  does.
- `skip_absent_runs.dfy` (`SkipAbsentRuns`): how the `--skip-absent-runs`
  option becomes the limit, as written and as documented (see Findings).

Behaviour of the code that the model keeps:

- `attempts_per_run` grows on every empty result, also after a success (247).
- Neither counter map is ever decreased or cleared (210-211, 247, 250).
- The skip guard compares the total of empty results for the run, not a
  count since the last success (231-233).
- A `skip_absent_runs` of None turns skipping off, as 0 would (231).

## Model

| member | source | states |
|---|---|---|
| `LocateCommon.Get` | src/npg_irods/cli/locate_data_objects.py:232-233 | reading a `defaultdict(int)`: a key never written reads as 0, a written key reads as its value |
| `LocateCommon.Bump` | src/npg_irods/cli/locate_data_objects.py:247 | incrementing a default-zero counter map adds one to that key and leaves every other key as it was |
| `LocateCommon.ExitStatus` | src/npg_irods/cli/locate_data_objects.py:259-261 | the exit status is 1 iff there was an error, 0 iff there was none |
| `IlluminaUpdates.Step` | src/npg_irods/cli/locate_data_objects.py:218-257 | one iteration: the item is counted, at most one error is added, and the output only grows at its end; the skip guard, the query and the three reply branches are its body |
| `IlluminaUpdates.RunFrom` | src/npg_irods/cli/locate_data_objects.py:213-257 | the loop over the remaining components, applying `Step` in order; it adds at most one error per component |
| `IlluminaUpdates.CounterUpdates` | src/npg_irods/cli/locate_data_objects.py:245-253 | a queried component with an empty reply adds exactly one attempt to its run; one with a non-empty reply adds exactly one success and prints exactly the reply; a skipped one changes neither; no run's counters ever decrease |
| `IlluminaUpdates.QueryException` | src/npg_irods/cli/locate_data_objects.py:245-257 | the error count grows by one iff the component was queried and the query raised; a raising query leaves both counter maps and the output unchanged |
| `IlluminaUpdates.SkipIsInert` | src/npg_irods/cli/locate_data_objects.py:230-243 | a component whose run meets the skip guard only counts as processed: no query, no output, no error, no counter change, whatever the store would reply |
| `IlluminaUpdates.OtherRunsUntouched` | src/npg_irods/cli/locate_data_objects.py:210-250 | a component of one run leaves the attempts, successes, queries and skip status of every other run unchanged |
| `IlluminaUpdates.DisabledNeverSkips` | src/npg_irods/cli/locate_data_objects.py:230-233 | with a falsy `skip_absent_runs` (None or 0) no run is ever skipped |
| `IlluminaUpdates.StepWithinLimit` | src/npg_irods/cli/locate_data_objects.py:230-248 | one iteration keeps the invariant that a run never found has at most `skip_absent_runs` attempts |
| `IlluminaUpdates.ProcessedCount` | src/npg_irods/cli/locate_data_objects.py:213-218 | the processed count grows by the number of components, skipped and raising ones included |
| `IlluminaUpdates.NeverDecreases` | src/npg_irods/cli/locate_data_objects.py:246-257 | over the whole loop no per-run attempt, success or query count and not the error count ever decreases, and the output only grows at its end |
| `IlluminaUpdates.ErrorAccounting` | src/npg_irods/cli/locate_data_objects.py:255-257 | the errors added are at most the number of raising replies, and exactly that number when skipping is off |
| `IlluminaUpdates.LimitKept` | src/npg_irods/cli/locate_data_objects.py:230-248 | the whole loop keeps the attempts of every run never found within `skip_absent_runs` |
| `IlluminaUpdates.UnresolvedRunQueries` | src/npg_irods/cli/locate_data_objects.py:230-248 | for a run whose every reply is empty, its queries equal its attempts and become exactly min(limit, attempts before + its components), or attempts before + its components when skipping is off; it never gains a success |
| `IlluminaUpdates.SkippedRunStaysSkipped` | src/npg_irods/cli/locate_data_objects.py:230-243 | once a run meets the skip guard it meets it to the end, and its queries, attempts and successes do not change again |
| `IlluminaUpdates.FoundRunNeverSkipped` | src/npg_irods/cli/locate_data_objects.py:230-250 | a run with a success is never skipped again and each of its later components is queried once |
| `IlluminaUpdates.DisabledQueriesAll` | src/npg_irods/cli/locate_data_objects.py:230-245 | with skipping off every component is queried, so each run gets one query per component |
| `IlluminaUpdates.AbsentRunUntouched` | src/npg_irods/cli/locate_data_objects.py:210-250 | a run with no component in the sequence keeps its counters and its skip status, so other runs' failures never make it skipped |
| `IlluminaUpdates.PrintedFromReplies` | src/npg_irods/cli/locate_data_objects.py:245-253 | every path printed was in some store reply |
| `IlluminaUpdates.QueryBound` | src/npg_irods/cli/locate_data_objects.py:230-248 | from process start, a run whose lookups never return results is queried min(`skip_absent_runs`, its components) times, at most `skip_absent_runs`, and once per component when skipping is off |
| `IlluminaUpdates.Locator.constructor` | src/npg_irods/cli/locate_data_objects.py:204-211 | a new locator has empty counter maps, zero counts, no output and the given limit |
| `IlluminaUpdates.Locator.Process` | src/npg_irods/cli/locate_data_objects.py:218-257 | one loop iteration moves the locator's whole state from its old value to `Step` of it |
| `IlluminaUpdates.IlluminaUpdatesCommand` | src/npg_irods/cli/locate_data_objects.py:200-261 | processes every component, reports at most one error per raising reply (exactly one when skipping is off), prints what the fold of `Step` prints, ends with the fold's per-run query counts (so `QueryBound` applies to it), and exits with 1 iff there was an error |
| `ConsentWithdrawn.DataObjects` | src/npg_irods/cli/locate_data_objects.py:145-147 | a path is printed from a recursive walk iff it is a data object the walk yielded; collections are not printed |
| `ConsentWithdrawn.WalkAll` | src/npg_irods/cli/locate_data_objects.py:142-150 | walking the matched collections raises iff some walk raises; everything printed is a data object of some walk; without an exception every data object of every walk is printed |
| `ConsentWithdrawn.LookUp` | src/npg_irods/cli/locate_data_objects.py:134-150 | a sample's lookup raises iff one of its queries or walks raises; a raising data-object query prints nothing; otherwise the data objects found are printed first; everything printed is a data object found directly or inside a matched collection |
| `ConsentWithdrawn.Step` | src/npg_irods/cli/locate_data_objects.py:125-150 | one iteration: the sample is counted, at most one error is added, and the output only grows at its end |
| `ConsentWithdrawn.RunFrom` | src/npg_irods/cli/locate_data_objects.py:125-150 | the loop over the remaining samples, applying `Step` in order; it adds at most one error per sample |
| `ConsentWithdrawn.SampleOutcome` | src/npg_irods/cli/locate_data_objects.py:125-150 | a sample with no LIMS id is one error, prints nothing and is not looked up; a sample with an id is looked up once (its id goes into the data-object query, and into the collection query unless the first raises) and is one error iff its lookup raises |
| `ConsentWithdrawn.Accounting` | src/npg_irods/cli/locate_data_objects.py:125-150 | every sample is processed; the errors are the missing ids plus the raising lookups; exactly the ids present are looked up, in sample order |
| `ConsentWithdrawn.ConsentWithdrawnCommand` | src/npg_irods/cli/locate_data_objects.py:119-154 | processes every sample, counts missing ids plus raising lookups as errors (never more than the samples), prints what the fold of `Step` prints, and exits with 1 iff there was an error |
| `OntUpdates.Reported` | src/npg_irods/cli/locate_data_objects.py:325-334 | unless tags are reported and the component has a tag identifier, the output is exactly the matched collections, in order |
| `OntUpdates.DeplexedOutput` | src/npg_irods/cli/locate_data_objects.py:330-332 | with tags reported and a tag identifier present, a path is printed iff it is a barcode sub-collection of some matched collection, so a matched collection is not printed for itself |
| `OntUpdates.ReportCollections` | src/npg_irods/cli/locate_data_objects.py:325-334 | the inner loop over matched collections produces exactly `Reported` |
| `OntUpdates.Step` | src/npg_irods/cli/locate_data_objects.py:315-338 | one iteration: the component is counted and queried once, at most one error is added, and the output only grows at its end |
| `OntUpdates.RunFrom` | src/npg_irods/cli/locate_data_objects.py:307-338 | the loop over the remaining components, applying `Step` in order; it adds at most one error per component |
| `OntUpdates.Accounting` | src/npg_irods/cli/locate_data_objects.py:307-338 | every component is processed and queried exactly once, and the errors are exactly the raising replies |
| `OntUpdates.PrintedFromMatches` | src/npg_irods/cli/locate_data_objects.py:320-334 | every printed path is a matched collection of a component that is not deplexed, or a barcode sub-collection of a collection matched for a deplexed one |
| `OntUpdates.OntUpdatesCommand` | src/npg_irods/cli/locate_data_objects.py:298-342 | processes every component, counts exactly the raising replies as errors, prints what the fold of `Step` prints, and exits with 1 iff there was an error |
| `SkipAbsentRuns.ParseAsWritten` | src/npg_irods/cli/locate_data_objects.py:187-197 | as declared: an omitted option gives 10; the bare flag gives None, which turns skipping off; an argument is accepted iff it is in 1..100 and is then the limit |
| `SkipAbsentRuns.ParseIntended` | src/npg_irods/cli/locate_data_objects.py:187-197 | as documented: every accepted form turns skipping on with a limit in 1..100; the bare flag means the default; only an out-of-range argument is rejected; every other form agrees with the declaration |
| `SkipAbsentRuns.BareFlagQueriesPastLimit` | src/npg_irods/cli/locate_data_objects.py:187-197 | with the bare flag, a run never found with eleven lanes gets 11 queries, while the documented default of 10 would give 10 |
| `SkipAbsentRuns.BareFlagNeverSkips` | src/npg_irods/cli/locate_data_objects.py:187-233 | with the bare flag as declared, a run never found is queried once per component, without bound |
| `SkipAbsentRuns.IntendedBoundsQueries` | src/npg_irods/cli/locate_data_objects.py:187-248 | with the documented reading, every accepted command line bounds the queries of a run never found by its limit, which is at most 100 |

## Findings

| source | as written | input that shows it | evidently intended | confidence | as-written member | corrected member |
|---|---|---|---|---|---|---|
| src/npg_irods/cli/locate_data_objects.py:187-197 | `--skip-absent-runs` takes an optional argument (`nargs="?"`) and has no `const`, so the bare flag stores None; None is falsy at line 231, so skipping is turned off | `illumina-updates --skip-absent-runs`, as in the usage example at lines 71-72, with a run absent from the store on eleven lanes: all 11 lanes are queried | the bare flag means the documented default of 10 attempts (`const=10`), so the same run gets 10 queries | medium, not executed | `SkipAbsentRuns.BareFlagQueriesPastLimit` | `SkipAbsentRuns.IntendedBoundsQueries` |

`IlluminaUpdatesCommand` takes the limit already parsed, as `illumina_updates`
reads it from `cli_args`. The command-line lemmas above put
`ParseIntended` in front of it.

## Left out

- Argument parsing other than `--skip-absent-runs`, logging, version
  printing and date formatting (lines 94-116, 157-186, 264-295, 347-362):
  command-line plumbing and clock access.
- Warehouse access (config loading, engine, session, and the queries that
  enumerate samples and components): foreign I/O. The enumerated items are
  an input sequence.
- The iRODS calls (`query_metadata`, `iter_contents`): network calls. They
  are the per-item reply sequences. A recursive walk may raise after a
  prefix of its entries, as a generator can.
- `barcode_collections`: its code is not part of this model. It is a total
  function parameter, so it is never the source of an exception.
- `integer_in_range` (src/npg_irods/cli/util.py) is not part of this model.
  It is taken to accept exactly 1..100, as the option's help text says.
- AVU construction (lines 134, 224-228, 321-324): partisan's `AVU` is not
  part of this model. It is taken never to raise. In `illumina_updates` an
  exception there would come before the skip check and count as one error.
  In `consent_withdrawn` the AVU is built at line 134, outside the `try` at
  137, so an exception there would end the whole command instead of
  counting one error.
- Exceptions raised by `print` itself: output I/O.
- `defaultdict` reads inserting a zero entry: not observable.
- ConsentWithdrawn.LookUp: the printing loops over data objects and
  walk entries are functions (`DataObjects`, `WalkAll`) that build the same
  output in the same order, not `while` loops.
- IlluminaUpdates.QueryBound: bounds only runs whose every reply is empty.
  A raising query is not an attempt, so a run whose queries keep raising is
  queried for every component, as in the source.
- The `update-secondary-metadata` and `apply-ont-metadata` commands: thin
  wrappers over code that is not part of this model.
