/** The `consent-withdrawn` sub-command: for each sample whose consent was
    withdrawn, print the data objects tagged with its LIMS sample id, and the
    data objects inside every collection so tagged. */
module ConsentWithdrawn {
  import opened LocateCommon

  /** A consent-withdrawn sample; only its LIMS id is used, and it may be missing. */
  datatype Sample = Sample(idSampleLims: Option<string>)

  /** One item yielded by walking a collection recursively. */
  datatype Entry = Entry(path: Path, isDataObject: bool)

  /** A recursive walk of one collection: the entries it yields, and whether
      it then raises instead of finishing. */
  datatype Walk = Walk(entries: seq<Entry>, raises: bool)

  /** The reply of the collection query: one walk per matching collection. */
  datatype CollectionsReply = Collections(walks: seq<Walk>) | CollectionsRaised

  /** What the store would reply for one sample: the data-object query, then
      the collection query and the walks of the collections it lists. */
  datatype SampleReply = SampleReply(objects: QueryResult, collections: CollectionsReply)

  /** The outcome of looking one sample up: what was printed before the
      lookup finished or raised, and whether it raised. */
  datatype Lookup = Lookup(printed: seq<Path>, raised: bool)

  /** The data objects among the entries of a walk, in the order yielded;
      collections are never printed. */
  function DataObjects(entries: seq<Entry>): (r: seq<Path>)
    ensures |r| <= |entries|
    ensures forall p :: p in r <==> exists e :: e in entries && e.isDataObject && e.path == p
  {
    if |entries| == 0 then []
    else
      var rest := DataObjects(entries[1..]);
      assert forall e :: e in entries <==> e == entries[0] || e in entries[1..];
      if entries[0].isDataObject then [entries[0].path] + rest else rest
  }

  /** Walking the listed collections in order, stopping at the first walk that
      raises: the lookup raises iff some walk does, everything printed is a
      data object of some walk, and with no exception every data object of
      every walk is printed. */
  function WalkAll(walks: seq<Walk>): (r: Lookup)
    ensures r.raised <==> exists w :: w in walks && w.raises
    ensures forall p :: p in r.printed ==>
      exists w, e :: w in walks && e in w.entries && e.isDataObject && e.path == p
    ensures !r.raised ==> forall w, e :: w in walks && e in w.entries && e.isDataObject ==> e.path in r.printed
  {
    if |walks| == 0 then Lookup([], false)
    else
      var here := DataObjects(walks[0].entries);
      assert forall w :: w in walks <==> w == walks[0] || w in walks[1..];
      if walks[0].raises then Lookup(here, true)
      else
        var rest := WalkAll(walks[1..]);
        Lookup(here + rest.printed, rest.raised)
  }

  /** The body of the `try` for a sample with an id: print the data objects
      found, then the data objects inside the collections found. A raising
      data-object query prints nothing; a raising collection query keeps what
      the first query printed. */
  function LookUp(reply: SampleReply): (r: Lookup)
    ensures r.raised <==> reply.objects.Raised? || reply.collections.CollectionsRaised?
                          || exists w :: w in reply.collections.walks && w.raises
    ensures reply.objects.Raised? ==> r.printed == []
    ensures reply.objects.Listed? ==> reply.objects.paths <= r.printed
    ensures forall p :: p in r.printed ==>
      || (reply.objects.Listed? && p in reply.objects.paths)
      || (reply.collections.Collections? && exists w, e :: w in reply.collections.walks && e in w.entries && e.isDataObject && e.path == p)
  {
    match reply.objects
    case Raised => Lookup([], true)
    case Listed(objs) =>
      match reply.collections
      case CollectionsRaised => Lookup(objs, true)
      case Collections(walks) =>
        var w := WalkAll(walks);
        Lookup(objs + w.printed, w.raised)
  }

  /** The loop's counters and output; `lookups` (instrumentation only) is the
      sequence of sample ids looked up. Each lookup is a data-object query,
      then, unless that raises, a collection query and the walks. */
  datatype Tally = Tally(numProcessed: nat, numErrors: nat, printed: seq<Path>, lookups: seq<string>)

  const Start := Tally(0, 0, [], [])

  /** One iteration for sample `s`. */
  function Step(t: Tally, s: Sample, reply: SampleReply): (r: Tally)
    ensures r.numProcessed == t.numProcessed + 1
    ensures t.numErrors <= r.numErrors <= t.numErrors + 1
    ensures t.printed <= r.printed
  {
    var t1 := t.(numProcessed := t.numProcessed + 1);
    match s.idSampleLims
    case None => t1.(numErrors := t.numErrors + 1)
    case Some(id) =>
      var l := LookUp(reply);
      t1.(numErrors := t.numErrors + (if l.raised then 1 else 0),
          printed := t.printed + l.printed,
          lookups := t.lookups + [id])
  }

  function RunFrom(t: Tally, samples: seq<Sample>, replies: seq<SampleReply>): (r: Tally)
    requires |samples| == |replies|
    ensures r.numErrors <= t.numErrors + |samples|
    decreases |samples|
  {
    if |samples| == 0 then t
    else RunFrom(Step(t, samples[0], replies[0]), samples[1..], replies[1..])
  }

  /** The number of samples without a LIMS id. */
  function CountMissing(samples: seq<Sample>): (n: nat)
    ensures n <= |samples|
  {
    if |samples| == 0 then 0
    else (if samples[0].idSampleLims.None? then 1 else 0) + CountMissing(samples[1..])
  }

  /** The number of samples with an id whose lookup raises. */
  function CountFailed(samples: seq<Sample>, replies: seq<SampleReply>): (n: nat)
    requires |samples| == |replies|
    ensures n + CountMissing(samples) <= |samples|
  {
    if |samples| == 0 then 0
    else (if samples[0].idSampleLims.Some? && LookUp(replies[0]).raised then 1 else 0)
         + CountFailed(samples[1..], replies[1..])
  }

  /** The LIMS ids present, in sample order. */
  function Ids(samples: seq<Sample>): (ids: seq<string>)
    ensures |ids| == |samples| - CountMissing(samples)
  {
    if |samples| == 0 then []
    else (match samples[0].idSampleLims case None => [] case Some(id) => [id]) + Ids(samples[1..])
  }

  /** A sample without an id is one error, is not looked up and prints
      nothing; a sample with an id is looked up once and is an error iff its
      lookup raises. */
  lemma SampleOutcome(t: Tally, s: Sample, reply: SampleReply)
    ensures var r := Step(t, s, reply);
      && r.numProcessed == t.numProcessed + 1
      && (s.idSampleLims.None? ==> r.numErrors == t.numErrors + 1 && r.printed == t.printed && r.lookups == t.lookups)
      && (s.idSampleLims.Some? ==>
            && r.lookups == t.lookups + [s.idSampleLims.value]
            && (r.numErrors == t.numErrors + 1 <==> LookUp(reply).raised)
            && (r.numErrors == t.numErrors <==> !LookUp(reply).raised))
  {
  }

  /** Every sample enumerated is processed, errors are exactly the missing ids
      plus the raising lookups, and exactly the ids present are looked up, in
      order. */
  lemma {:induction false} Accounting(t: Tally, samples: seq<Sample>, replies: seq<SampleReply>)
    requires |samples| == |replies|
    ensures var f := RunFrom(t, samples, replies);
      && f.numProcessed == t.numProcessed + |samples|
      && f.numErrors == t.numErrors + CountMissing(samples) + CountFailed(samples, replies)
      && f.lookups == t.lookups + Ids(samples)
      && t.printed <= f.printed
    decreases |samples|
  {
    if |samples| > 0 {
      var t' := Step(t, samples[0], replies[0]);
      Accounting(t', samples[1..], replies[1..]);
      SampleOutcome(t, samples[0], replies[0]);
    }
  }

  /** `consent_withdrawn`: process every sample in order and report the
      counts, the printed paths and the exit status. */
  method ConsentWithdrawnCommand(samples: seq<Sample>, replies: seq<SampleReply>)
    returns (numProcessed: nat, numErrors: nat, printed: seq<Path>, status: nat)
    requires |samples| == |replies|
    ensures numProcessed == |samples|
    ensures numErrors == CountMissing(samples) + CountFailed(samples, replies)
    ensures numErrors <= numProcessed
    ensures status == 1 <==> numErrors > 0
    ensures status == 0 <==> numErrors == 0
    ensures printed == RunFrom(Start, samples, replies).printed
  {
    numProcessed, numErrors, printed := 0, 0, [];
    ghost var lookups: seq<string> := [];
    var i := 0;
    while i < |samples|
      invariant 0 <= i <= |samples|
      invariant RunFrom(Tally(numProcessed, numErrors, printed, lookups), samples[i..], replies[i..])
                == RunFrom(Start, samples, replies)
    {
      assert samples[i..][1..] == samples[i + 1..] && replies[i..][1..] == replies[i + 1..];
      numProcessed := numProcessed + 1;
      var s := samples[i];
      if s.idSampleLims.None? {
        numErrors := numErrors + 1;
      } else {
        lookups := lookups + [s.idSampleLims.value];
        var l := LookUp(replies[i]);
        printed := printed + l.printed;
        if l.raised {
          numErrors := numErrors + 1;
        }
      }
      i := i + 1;
    }
    assert samples[i..] == [] && replies[i..] == [];
    Accounting(Start, samples, replies);
    status := ExitStatus(numErrors);
  }
}
