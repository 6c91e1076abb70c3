/** The common shape of the two `while True` poll loops: each turn either
    keeps polling (after a sleep) or ends the job with one outcome.  A
    trace of observations is finite, so running out of it is the one
    non-terminal answer, `None`: "still polling when the trace ended". */
module Polling {
  import opened Backend

  datatype Step<O> = KeepPolling | Finish(outcome: O)

  /** The outcome of a poll loop whose turn `i` sees `polls[i]`. */
  function Drive<O>(step: Poll -> Step<O>, polls: seq<Poll>): Option<O>
    decreases |polls|
  {
    if polls == [] then None
    else match step(polls[0])
      case KeepPolling => Drive(step, polls[1..])
      case Finish(o) => Some(o)
  }

  /** The loop ends on the first turn that does not keep polling, with that
      turn's outcome; whatever the trace holds after it is never looked at. */
  lemma {:induction false} DriveFirstFinish<O>(step: Poll -> Step<O>, polls: seq<Poll>, k: nat, o: O)
    requires k < |polls|
    requires forall j :: 0 <= j < k ==> step(polls[j]).KeepPolling?
    requires step(polls[k]) == Finish(o)
    ensures Drive(step, polls) == Some(o)
    decreases k
  {
    if k > 0 {
      assert step(polls[0]).KeepPolling?;
      forall j | 0 <= j < k - 1
        ensures step(polls[1..][j]).KeepPolling?
      {
        assert polls[1..][j] == polls[j + 1];
      }
      DriveFirstFinish(step, polls[1..], k - 1, o);
    }
  }

  /** The loop is still running at the end of the trace exactly when every
      turn of the trace kept polling. */
  lemma {:induction false} DriveUnfinished<O>(step: Poll -> Step<O>, polls: seq<Poll>)
    ensures Drive(step, polls).None? <==> forall j :: 0 <= j < |polls| ==> step(polls[j]).KeepPolling?
    decreases |polls|
  {
    if polls != [] {
      DriveUnfinished(step, polls[1..]);
      if step(polls[0]).KeepPolling? {
        assert forall j :: 1 <= j < |polls| ==> polls[j] == polls[1..][j - 1];
      }
    }
  }

  /** Dropping turns that kept polling does not change the outcome; this is
      what a loop over the trace keeps invariant. */
  lemma DriveSkip<O>(step: Poll -> Step<O>, polls: seq<Poll>, i: nat)
    requires i < |polls| && step(polls[i]).KeepPolling?
    ensures Drive(step, polls[i..]) == Drive(step, polls[i + 1..])
  {
    assert polls[i..][1..] == polls[i + 1..];
  }

  /** A finished loop finished on some turn of the trace, with that turn's
      outcome. */
  lemma {:induction false} DriveOutcomeWitness<O>(step: Poll -> Step<O>, polls: seq<Poll>)
    ensures Drive(step, polls).Some? ==>
      exists k :: 0 <= k < |polls| && step(polls[k]) == Finish(Drive(step, polls).value)
    decreases |polls|
  {
    if polls != [] && step(polls[0]).KeepPolling? {
      DriveOutcomeWitness(step, polls[1..]);
      if Drive(step, polls[1..]).Some? {
        var k :| 0 <= k < |polls[1..]| && step(polls[1..][k]) == Finish(Drive(step, polls[1..]).value);
        assert polls[1..][k] == polls[k + 1];
      }
    }
  }
}
