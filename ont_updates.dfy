/** The `ont-updates` sub-command: for each ONT component whose tracking
    records changed, print the run collections that match its experiment name
    and instrument slot, or, when tags are reported and the component has a
    tag identifier, the barcode sub-collections of those collections. */
module OntUpdates {
  import opened LocateCommon

  /** An ONT component: experiment, instrument slot and optional tag identifier. */
  datatype Component = Component(experimentName: string, instrumentSlot: int, tagIdentifier: Option<string>)

  /** Barcode expansion: the sub-collections of a run collection for one tag
      identifier. Its implementation is not part of this model; every run of
      the program uses one fixed such function. */
  type Barcodes = (Path, string) -> seq<Path>

  /** Whether the matched collections of `c` are replaced by their barcode
      sub-collections. */
  predicate Deplexes(reportTags: bool, c: Component)
  {
    reportTags && c.tagIdentifier.Some?
  }

  /** What one matched collection contributes to the output. */
  function Contribution(reportTags: bool, barcodes: Barcodes, c: Component, coll: Path): seq<Path>
  {
    if Deplexes(reportTags, c) then barcodes(coll, c.tagIdentifier.value) else [coll]
  }

  /** The output for the matched collections `colls`, in order. Without
      deplexing it is exactly the matched collections. */
  function Reported(reportTags: bool, barcodes: Barcodes, c: Component, colls: seq<Path>): (r: seq<Path>)
    ensures !Deplexes(reportTags, c) ==> r == colls
    decreases |colls|
  {
    if |colls| == 0 then []
    else
      Reported(reportTags, barcodes, c, colls[..|colls| - 1])
      + Contribution(reportTags, barcodes, c, colls[|colls| - 1])
  }

  /** With deplexing a path is printed iff it is a barcode sub-collection of
      some matched collection, so a matched collection is not printed for
      itself. */
  lemma {:induction false} DeplexedOutput(reportTags: bool, barcodes: Barcodes, c: Component, colls: seq<Path>, p: Path)
    requires Deplexes(reportTags, c)
    ensures p in Reported(reportTags, barcodes, c, colls) <==>
      exists j :: 0 <= j < |colls| && p in barcodes(colls[j], c.tagIdentifier.value)
    decreases |colls|
  {
    if |colls| > 0 {
      var init := colls[..|colls| - 1];
      DeplexedOutput(reportTags, barcodes, c, init, p);
      assert forall j :: 0 <= j < |init| ==> init[j] == colls[j];
    }
  }

  /** The inner `for coll in ...` loop of one component. */
  method ReportCollections(reportTags: bool, barcodes: Barcodes, c: Component, colls: seq<Path>)
    returns (out: seq<Path>)
    ensures out == Reported(reportTags, barcodes, c, colls)
  {
    out := [];
    for k := 0 to |colls|
      invariant out == Reported(reportTags, barcodes, c, colls[..k])
    {
      assert colls[..k + 1][..k] == colls[..k];
      if reportTags && c.tagIdentifier.Some? {
        var bcolls := barcodes(colls[k], c.tagIdentifier.value);
        out := out + bcolls;
      } else {
        out := out + [colls[k]];
      }
    }
    assert colls[..|colls|] == colls;
  }

  /** The loop's counters and output; `queries` (instrumentation only) is the
      number of store queries issued. */
  datatype Tally = Tally(numProcessed: nat, numErrors: nat, printed: seq<Path>, queries: nat)

  const Start := Tally(0, 0, [], 0)

  /** One iteration for component `c`; `reply` is the store's answer to the
      collection query. */
  function Step(reportTags: bool, barcodes: Barcodes, t: Tally, c: Component, reply: QueryResult): (r: Tally)
    ensures r.numProcessed == t.numProcessed + 1 && r.queries == t.queries + 1
    ensures t.numErrors <= r.numErrors <= t.numErrors + 1
    ensures t.printed <= r.printed
  {
    var t1 := t.(numProcessed := t.numProcessed + 1, queries := t.queries + 1);
    match reply
    case Raised => t1.(numErrors := t.numErrors + 1)
    case Listed(colls) => t1.(printed := t.printed + Reported(reportTags, barcodes, c, colls))
  }

  function RunFrom(reportTags: bool, barcodes: Barcodes, t: Tally, comps: seq<Component>, replies: seq<QueryResult>): (r: Tally)
    requires |comps| == |replies|
    ensures r.numErrors <= t.numErrors + |comps|
    decreases |comps|
  {
    if |comps| == 0 then t
    else RunFrom(reportTags, barcodes, Step(reportTags, barcodes, t, comps[0], replies[0]), comps[1..], replies[1..])
  }

  /** Every component is processed and queried once, and the errors are
      exactly the raising queries. */
  lemma {:induction false} Accounting(reportTags: bool, barcodes: Barcodes, t: Tally, comps: seq<Component>, replies: seq<QueryResult>)
    requires |comps| == |replies|
    ensures var f := RunFrom(reportTags, barcodes, t, comps, replies);
      && f.numProcessed == t.numProcessed + |comps|
      && f.queries == t.queries + |comps|
      && f.numErrors == t.numErrors + CountRaised(replies)
      && t.printed <= f.printed
    decreases |comps|
  {
    if |comps| > 0 {
      Accounting(reportTags, barcodes, Step(reportTags, barcodes, t, comps[0], replies[0]), comps[1..], replies[1..]);
    }
  }

  /** What is printed for a matched path: a barcode sub-collection of a
      collection matched for a deplexed component, or the collection itself
      otherwise. */
  ghost predicate ReportedFor(reportTags: bool, barcodes: Barcodes, c: Component, reply: QueryResult, p: Path)
  {
    reply.Listed? &&
    if Deplexes(reportTags, c)
    then exists coll :: coll in reply.paths && p in barcodes(coll, c.tagIdentifier.value)
    else p in reply.paths
  }

  /** Everything the loop prints was reported for one of the components. */
  lemma {:induction false} PrintedFromMatches(reportTags: bool, barcodes: Barcodes, t: Tally, comps: seq<Component>, replies: seq<QueryResult>, p: Path)
    requires |comps| == |replies|
    requires p in RunFrom(reportTags, barcodes, t, comps, replies).printed
    ensures p in t.printed || exists i :: 0 <= i < |comps| && ReportedFor(reportTags, barcodes, comps[i], replies[i], p)
    decreases |comps|
  {
    if |comps| > 0 {
      var t' := Step(reportTags, barcodes, t, comps[0], replies[0]);
      PrintedFromMatches(reportTags, barcodes, t', comps[1..], replies[1..], p);
      if p in t'.printed && p !in t.printed {
        var colls := replies[0].paths;
        assert p in Reported(reportTags, barcodes, comps[0], colls);
        if Deplexes(reportTags, comps[0]) {
          DeplexedOutput(reportTags, barcodes, comps[0], colls, p);
          var j :| 0 <= j < |colls| && p in barcodes(colls[j], comps[0].tagIdentifier.value);
          assert colls[j] in colls;
        }
        assert ReportedFor(reportTags, barcodes, comps[0], replies[0], p);
      } else if p !in t'.printed {
        var i :| 0 <= i < |comps[1..]| && ReportedFor(reportTags, barcodes, comps[1..][i], replies[1..][i], p);
        assert comps[i + 1] == comps[1..][i] && replies[i + 1] == replies[1..][i];
      }
    }
  }

  /** `ont_updates`: process every component in order and report the counts,
      the printed paths and the exit status. */
  method OntUpdatesCommand(reportTags: bool, barcodes: Barcodes, comps: seq<Component>, replies: seq<QueryResult>)
    returns (numProcessed: nat, numErrors: nat, printed: seq<Path>, status: nat)
    requires |comps| == |replies|
    ensures numProcessed == |comps|
    ensures numErrors == CountRaised(replies)
    ensures status == 1 <==> numErrors > 0
    ensures status == 0 <==> numErrors == 0
    ensures printed == RunFrom(reportTags, barcodes, Start, comps, replies).printed
  {
    numProcessed, numErrors, printed := 0, 0, [];
    ghost var queries: nat := 0;
    var i := 0;
    while i < |comps|
      invariant 0 <= i <= |comps|
      invariant RunFrom(reportTags, barcodes, Tally(numProcessed, numErrors, printed, queries), comps[i..], replies[i..])
                == RunFrom(reportTags, barcodes, Start, comps, replies)
    {
      ghost var before := Tally(numProcessed, numErrors, printed, queries);
      assert comps[i..][1..] == comps[i + 1..] && replies[i..][1..] == replies[i + 1..];
      assert RunFrom(reportTags, barcodes, before, comps[i..], replies[i..])
          == RunFrom(reportTags, barcodes, Step(reportTags, barcodes, before, comps[i], replies[i]), comps[i + 1..], replies[i + 1..]);
      numProcessed := numProcessed + 1;
      queries := queries + 1;
      match replies[i] {
        case Raised =>
          numErrors := numErrors + 1;
        case Listed(colls) =>
          var out := ReportCollections(reportTags, barcodes, comps[i], colls);
          printed := printed + out;
      }
      assert Tally(numProcessed, numErrors, printed, queries) == Step(reportTags, barcodes, before, comps[i], replies[i]);
      i := i + 1;
    }
    assert comps[i..] == [] && replies[i..] == [];
    Accounting(reportTags, barcodes, Start, comps, replies);
    status := ExitStatus(numErrors);
  }
}
