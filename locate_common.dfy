/** Shared vocabulary of the three `locate-data-objects` sub-commands:
    store paths, the reply of one store metadata query, the per-run
    counter maps (Python `defaultdict(int)`), item counts and the exit status. */
module LocateCommon {

  datatype Option<+T> = None | Some(value: T)

  /** A data object or collection path, as printed on standard output. */
  type Path = string

  /** The reply of one metadata query to the store: the matching paths, or
      an exception raised by the query. An empty `Listed` is Python's falsy result. */
  datatype QueryResult = Listed(paths: seq<Path>) | Raised

  /** Reading a `defaultdict(int)`: a key never written reads as 0. */
  function Get<K(!new)>(m: map<K, nat>, k: K): (v: nat)
    ensures k !in m ==> v == 0
    ensures k in m ==> v == m[k]
  {
    if k in m then m[k] else 0
  }

  /** `m[k] += 1` on a `defaultdict(int)`. */
  function Bump<K(!new)>(m: map<K, nat>, k: K): (r: map<K, nat>)
    ensures Get(r, k) == Get(m, k) + 1
    ensures forall j :: j != k ==> Get(r, j) == Get(m, j)
  {
    m[k := Get(m, k) + 1]
  }

  /** The process exit status after `if num_errors: exit(1)`; a sub-command
      that returns normally leaves the process with status 0. */
  function ExitStatus(numErrors: nat): (status: nat)
    ensures status == 1 <==> numErrors > 0
    ensures status == 0 <==> numErrors == 0
  {
    if numErrors > 0 then 1 else 0
  }

  /** Number of replies that are exceptions. */
  function CountRaised(answers: seq<QueryResult>): (n: nat)
    ensures n <= |answers|
  {
    if |answers| == 0 then 0
    else (if answers[0].Raised? then 1 else 0) + CountRaised(answers[1..])
  }
}
