/**
 * The health-check hook of the frontend (frontend/src/hooks/useHealthCheck.ts):
 * the state cells `health`, `loading` and `error`, updated by `refetch`,
 * and the derived `isHealthy` flag. As for the query hook, `refetch` is
 * split into its synchronous start and its resolution with a given outcome.
 */
module UseHealthCheck {
  import opened Wrappers
  import opened Models
  import opened Errors

  const HealthyStatus := "healthy"

  /** `health?.status === 'healthy'`, over a health value. */
  function IsHealthyReport(health: Option<HealthResponse>): (r: bool)
    ensures r <==> health.Some? && health.value.status == HealthyStatus
  {
    match health
    case None => false
    case Some(h) => h.status == HealthyStatus
  }

  class HealthHook {
    var health: Option<HealthResponse>
    var loading: bool
    var error: Option<string>

    /** An error leaves no stale report behind, and no error is shown while loading. */
    ghost predicate Valid()
      reads this
    {
      (error.Some? ==> health.None?) && (loading ==> error.None?)
    }

    /** The initial state before any check. */
    constructor ()
      ensures health == None && !loading && error == None
      ensures Valid()
    {
      health := None;
      loading := false;
      error := None;
    }

    /** `isHealthy`: a report is held and its status is exactly 'healthy'. */
    function IsHealthy(): (r: bool)
      reads this
      ensures r <==> health.Some? && health.value.status == HealthyStatus
      ensures Valid() && r ==> error == None
    {
      IsHealthyReport(health)
    }

    /** The start of `refetch`: loading, error cleared, the previous report kept. */
    method StartRefetch()
      requires Valid()
      modifies this
      ensures Valid()
      ensures loading && error == None && health == old(health)
    {
      loading := true;
      error := None;
    }

    /** The end of `refetch`: the report, or the error's message with the report cleared. */
    method ResolveRefetch(outcome: Result<HealthResponse, Thrown>)
      requires Valid() && loading
      modifies this
      ensures Valid() && !loading
      ensures outcome.Success? ==> health == Some(outcome.value) && error == None
      ensures outcome.Failure? ==> error == Some(GetErrorMessage(outcome.error)) && health == None
    {
      match outcome {
        case Success(result) =>
          health := Some(result);
        case Failure(err) =>
          error := Some(GetErrorMessage(err));
          health := None;
      }
      loading := false;
    }

    /** `refetch()` run to completion, with the request's outcome given. */
    method Refetch(outcome: Result<HealthResponse, Thrown>)
      requires Valid()
      modifies this
      ensures Valid() && !loading
      ensures IsHealthy() <==> outcome.Success? && outcome.value.status == HealthyStatus
      ensures outcome.Failure? ==> error == Some(GetErrorMessage(outcome.error)) && health == None
      ensures outcome.Success? ==> health == Some(outcome.value) && error == None
    {
      StartRefetch();
      ResolveRefetch(outcome);
    }

    /**
     * The mount effect: with `autoCheck` one `refetch` runs (whose outcome
     * is given); without it the state is untouched. `checks` counts the
     * requests sent.
     */
    method OnMount(autoCheck: bool, outcome: Result<HealthResponse, Thrown>) returns (checks: nat)
      requires Valid()
      modifies this
      ensures Valid()
      ensures checks == (if autoCheck then 1 else 0)
      ensures !autoCheck ==> health == old(health) && loading == old(loading) && error == old(error)
      ensures autoCheck ==> (IsHealthy() <==> outcome.Success? && outcome.value.status == HealthyStatus)
    {
      checks := 0;
      if autoCheck {
        Refetch(outcome);
        checks := 1;
      }
    }
  }

  /** Only the exact status counts: 'Healthy' and 'degraded' reports are not healthy. */
  lemma StatusMustMatchExactly(storeName: Option<string>, fileCount: Option<int>)
    ensures !IsHealthyReport(Some(HealthResponse("Healthy", storeName, fileCount)))
    ensures !IsHealthyReport(Some(HealthResponse("degraded", storeName, fileCount)))
    ensures IsHealthyReport(Some(HealthResponse("healthy", storeName, fileCount)))
  {
  }
}
