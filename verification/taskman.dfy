// What a task handler asks of the task manager and the database: the
// effects the two modelled task handlers emit, in order.

module Taskman {

  /** Resource statuses the handlers set. */
  datatype Status = UpdateTagsFailed | SecgroupCacheUnknown

  /** Errors of cloud-provider calls, by cause; the text is what the error
      prints. */
  datatype Cause = NotSupported | NotImplemented | OtherCause
  datatype CloudError = CloudError(cause: Cause, text: string)

  /** `errors.Wrapf(err, what)`: the same cause, the text prefixed. */
  function Wrap(e: CloudError, what: string): (r: CloudError)
    ensures r.cause == e.cause
  {
    CloudError(e.cause, what + ": " + e.text)
  }

  /** Calls that reach the cloud or the database, and the task manager's
      stage transitions. */
  datatype Effect =
    | SetStatus(status: Status, reason: string)
    | StageFailed(reason: string)
    | StageComplete
    | SetStage(stage: string)
    | StartSubtask(kind: string, parentId: string)
    | CallSetTags(tags: map<string, string>, replace: bool)
    | ActionLog(success: bool)
    | SyncBaseInfo

  /** Effects that end the task. */
  predicate Terminal(e: Effect)
  {
    e.StageFailed? || e.StageComplete?
  }

  /** How many effects of `es` end the task. */
  function Terminals(es: seq<Effect>): (r: nat)
    ensures r <= |es|
    ensures r == 0 <==> forall i :: 0 <= i < |es| ==> !Terminal(es[i])
  {
    if es == [] then 0 else (if Terminal(es[0]) then 1 else 0) + Terminals(es[1..])
  }

  /** Counting over a concatenation. */
  lemma {:induction false} TerminalsConcat(a: seq<Effect>, b: seq<Effect>)
    ensures Terminals(a + b) == Terminals(a) + Terminals(b)
  {
    if a == [] {
      assert a + b == b;
    } else {
      assert (a + b)[0] == a[0];
      assert (a + b)[1..] == a[1..] + b;
      TerminalsConcat(a[1..], b);
    }
  }
}
