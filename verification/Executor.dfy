/** The in-process branch of `internal/executor/executor.go`. */
module Executor {
  import opened Wrappers

  datatype ExecutionResult = ExecutionResult(exitCode: int, bytesMutated: int, success: bool)

  datatype Verdict = Succeeded | TimedOut | BlastRadiusExceeded(bytes: int, max: int) | ActionFailed

  const DEFAULT_TIMEOUT := 15    // seconds

  /** The deadline of an action: its own, or the default, but never beyond the blast radius. */
  function EffectiveTimeout(timeout: int, maxExecutionTime: int): (r: int)
    ensures 0 < r && (0 < maxExecutionTime ==> r <= maxExecutionTime)
    ensures 0 < timeout && (0 < maxExecutionTime ==> timeout <= maxExecutionTime) ==> r == timeout
    ensures timeout <= 0 && (0 < maxExecutionTime ==> 15 <= maxExecutionTime) ==> r == 15
    ensures r != timeout && r != 15 ==> r == maxExecutionTime
  {
    var t := if timeout <= 0 then DEFAULT_TIMEOUT else timeout;
    if maxExecutionTime > 0 && t > maxExecutionTime then maxExecutionTime else t
  }

  /**
    What becomes of the result and error of a `MutateFn`.  A deadline hides everything else, and
    a breach of the byte clamp hides an error of the action.
   */
  method ExecuteMutation(res: Option<ExecutionResult>, failed: bool, deadlineExceeded: bool, maxBytesMutated: int)
    returns (r: ExecutionResult, v: Verdict)
    ensures v == TimedOut <==> deadlineExceeded
    ensures v.BlastRadiusExceeded? <==>
      !deadlineExceeded && 0 < maxBytesMutated && res.Some? && maxBytesMutated < res.value.bytesMutated
    ensures v == ActionFailed <==> failed && !v.TimedOut? && !v.BlastRadiusExceeded?
    ensures v.BlastRadiusExceeded? ==> v.max == maxBytesMutated < v.bytes && v.bytes == r.bytesMutated
    ensures r.exitCode == if v == TimedOut then 124 else if res.Some? then res.value.exitCode else 0
    ensures r.success ==
      if v == Succeeded then true else if v == ActionFailed || res.None? then false else res.value.success
    ensures r.bytesMutated == if res.Some? then res.value.bytesMutated else 0
  {
    r := if res.None? then ExecutionResult(0, 0, false) else res.value;
    if deadlineExceeded {
      r := r.(exitCode := 124);
      return r, TimedOut;
    }
    if maxBytesMutated > 0 && r.bytesMutated > maxBytesMutated {
      return r, BlastRadiusExceeded(r.bytesMutated, maxBytesMutated);
    }
    if failed {
      r := r.(success := false);
      return r, ActionFailed;
    }
    r := r.(success := true);
    return r, Succeeded;
  }
}
