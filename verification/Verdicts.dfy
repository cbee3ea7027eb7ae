/** Adapter verdicts and their normalization before anything is recorded
    (remote_mutation.py, `MutationResult`, `_normalize_result`, `ObservationResult`). */
module Verdicts {
  import opened Base

  datatype ErrorCode =
    | NoError
    | TargetNotFound
    | IdentityMismatch
    | ProviderRejected
    | SafeDeleteUnsupported
    | RemoteStateConflict
    | AuthorizationFailed
    | TransportUnknown
    | AdapterException
    | StalePlan
    | InvalidAdapterResult
    | ReconciledPresent

  /** The outcome is a free string in the source; anything outside the closed set is `OtherOutcome`. */
  datatype Outcome = SuccessConfirmed | FailureConfirmedNoMutation | OutcomeUnknown | OtherOutcome(text: string)

  datatype MutationResult = MutationResult(outcome: Outcome, confirmedAbsent: bool, errorCode: Option<ErrorCode>)

  datatype RowStatus = Planned | Started | Succeeded | Failed | Unknown

  datatype Summary = ConfirmedAbsentSummary | ConfirmedNoMutation | OutcomeUncertain

  datatype Recorded = Recorded(status: RowStatus, summary: Summary, code: ErrorCode) | InvalidInternalCode

  /** Observer answers; everything the observer may say outside the closed set counts as unknown. */
  datatype Observation = ObservedAbsent | ObservedPresentMatch | ObservedConflict | ObservedUnknown

  function Success(): MutationResult {
    MutationResult(SuccessConfirmed, true, None)
  }

  function Failure(code: ErrorCode): MutationResult {
    MutationResult(FailureConfirmedNoMutation, false, Some(code))
  }

  function Uncertain(): MutationResult {
    MutationResult(OutcomeUnknown, false, Some(TransportUnknown))
  }

  const FAILURE_CODES: set<ErrorCode> := {
    TargetNotFound, IdentityMismatch, ProviderRejected, SafeDeleteUnsupported, RemoteStateConflict, AuthorizationFailed
  }

  function Normalize(result: MutationResult, internal: Option<ErrorCode>): Recorded {
    if internal.Some? then
      if internal.value == AdapterException then Recorded(Unknown, OutcomeUncertain, AdapterException)
      else InvalidInternalCode
    else
      var code := if result.errorCode.None? then NoError else result.errorCode.value;
      if result.outcome == SuccessConfirmed && result.confirmedAbsent && code == NoError then
        Recorded(Succeeded, ConfirmedAbsentSummary, NoError)
      else if result.outcome == FailureConfirmedNoMutation && !result.confirmedAbsent && code in FAILURE_CODES then
        Recorded(Failed, ConfirmedNoMutation, code)
      else if result.outcome == OutcomeUnknown && !result.confirmedAbsent && code == TransportUnknown then
        Recorded(Unknown, OutcomeUncertain, code)
      else
        Recorded(Unknown, OutcomeUncertain, InvalidAdapterResult)
  }

  /** The closed set of answers a conforming adapter may give. */
  ghost predicate Coherent(result: MutationResult) {
    || result == Success()
    || (exists code :: code in FAILURE_CODES && result == Failure(code))
    || result == Uncertain()
  }

  /** A coherent answer is recorded under its own status and is never mistaken for a malformed one;
      no answer at all is recorded as succeeded unless the adapter confirmed absence. */
  lemma {:induction false} NormalizeIsFaithful(result: MutationResult)
    ensures Coherent(result) ==>
              && Normalize(result, None).Recorded?
              && Normalize(result, None).code != InvalidAdapterResult
              && (Normalize(result, None).status == Succeeded <==> result == Success())
              && (Normalize(result, None).status == Failed <==> result.outcome == FailureConfirmedNoMutation)
              && (Normalize(result, None).status == Unknown <==> result == Uncertain())
    ensures Normalize(result, None).Recorded? && Normalize(result, None).status in {Succeeded, Failed, Unknown}
    ensures Normalize(result, None).status == Succeeded ==> result.confirmedAbsent && result.outcome == SuccessConfirmed
    ensures Normalize(result, Some(AdapterException)).status == Unknown
  {
  }
}
