/** The answers of the remote record store, taken as inputs: the SDK calls
    themselves are not modelled. */
module Remote {
  import opened Wrappers
  import opened Seqs

  /** What `fetchRecords` came back with: it threw, or it answered with a
      success flag and, possibly, no `data` at all. */
  datatype Fetched<T> = FetchThrew | Fetched(success: bool, data: Option<seq<T>>)

  /** What `deleteRecord` came back with: it threw, or it answered with a
      success flag and, possibly, per-record success flags. */
  datatype Mutated = MutationThrew | Mutated(success: bool, results: Option<seq<bool>>)

  /** What a call that can throw came back with: it threw, or it returned a
      value, possibly `undefined` (`None`). */
  datatype Outcome<T> = Threw | Returned(value: Option<T>)

  function Failed(recordSucceeded: bool): bool { !recordSucceeded }

  /** `delete` of the event and expense services: the answer read as a boolean.
      It is true exactly when the store answered with success and a list of
      results none of which failed; every other answer, a throw included, is
      false. */
  function DeleteSucceeded(resp: Mutated): (ok: bool)
    ensures ok <==>
              resp.Mutated? && resp.success && resp.results.Some? &&
              forall i :: 0 <= i < |resp.results.value| ==> resp.results.value[i]
  {
    match resp
    case MutationThrew => false
    case Mutated(success, results) =>
      if !success then false
      // no `results`: the source falls off the end and returns `undefined`
      else if results.None? then false
      else
        var failed := Filter(results.value, Failed);
        assert forall i :: 0 <= i < |results.value| && !results.value[i] ==> results.value[i] in failed;
        assert failed != [] ==> failed[0] in failed;
        |failed| == 0
  }
}
