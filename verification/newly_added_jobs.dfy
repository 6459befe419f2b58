/**
 * The "newly added" highlight state of the job-application context
 * (contexts/JobApplicationContext.tsx): a set of job ids, replaced on
 * every add or remove, beside a map from job id to a pending timer that
 * each add or remove clears for the id it touches.
 */
module NewlyAddedJobs {
  import opened Wrappers

  /** A `NodeJS.Timeout` handle. */
  type TimeoutHandle = nat

  class JobHighlights {
    /** `newlyAddedJobs`. */
    var jobs: set<string>
    /** `timeoutRefs.current`. */
    var timeouts: map<string, TimeoutHandle>
    /** The handles passed to `clearTimeout`, in call order. */
    var cleared: seq<TimeoutHandle>

    constructor ()
      ensures jobs == {} && timeouts == map[] && cleared == []
    {
      jobs := {};
      timeouts := map[];
      cleared := [];
    }

    /** The timer that touching `jobId` cancels, if there is one. */
    function PendingFor(jobId: string): (r: Option<TimeoutHandle>)
      reads this
      ensures r.Some? <==> jobId in timeouts
      ensures r.Some? ==> r.value == timeouts[jobId]
    {
      if jobId in timeouts then Some(timeouts[jobId]) else None
    }

    /** The handles `clearTimeout` receives for a pending timer, if any. */
    function ClearedBy(jobId: string): seq<TimeoutHandle>
      reads this
    {
      match PendingFor(jobId)
      case None => []
      case Some(handle) => [handle]
    }

    /** `addNewlyAddedJob`. */
    method Add(jobId: string)
      modifies this
      ensures jobs == old(jobs) + {jobId}
      ensures timeouts == old(timeouts) - {jobId}
      ensures cleared == old(cleared) + old(ClearedBy(jobId))
      ensures jobId in jobs && jobId !in timeouts
      ensures forall other :: other != jobId ==> (other in jobs <==> other in old(jobs))
      ensures forall other :: other != jobId && other in old(timeouts) ==>
        other in timeouts && timeouts[other] == old(timeouts)[other]
    {
      jobs := jobs + {jobId};
      if jobId in timeouts {
        cleared := cleared + [timeouts[jobId]];
        timeouts := timeouts - {jobId};
      }
    }

    /** `removeNewlyAddedJob`. */
    method Remove(jobId: string)
      modifies this
      ensures jobs == old(jobs) - {jobId}
      ensures timeouts == old(timeouts) - {jobId}
      ensures cleared == old(cleared) + old(ClearedBy(jobId))
      ensures jobId !in jobs && jobId !in timeouts
      ensures forall other :: other != jobId ==> (other in jobs <==> other in old(jobs))
      ensures forall other :: other != jobId && other in old(timeouts) ==>
        other in timeouts && timeouts[other] == old(timeouts)[other]
    {
      jobs := jobs - {jobId};
      if jobId in timeouts {
        cleared := cleared + [timeouts[jobId]];
        timeouts := timeouts - {jobId};
      }
    }

    /** `isJobNewlyAdded`: membership, reading the state and changing nothing. */
    method IsJobNewlyAdded(jobId: string) returns (b: bool)
      ensures b <==> jobId in jobs
    {
      b := jobId in jobs;
    }
  }

  /**
   * Adding twice is adding once, removing an absent id changes no
   * membership, and a removed id reads back as not newly added.
   */
  method HighlightScenario(j: string, k: string)
    requires j != k
  {
    var h := new JobHighlights();
    h.Add(j);
    var once := h.jobs;
    h.Add(j);
    assert h.jobs == once;
    var isNew := h.IsJobNewlyAdded(j);
    assert isNew;
    h.Remove(k);
    assert h.jobs == once;
    h.Remove(j);
    isNew := h.IsJobNewlyAdded(j);
    assert !isNew && h.jobs == {};
  }
}
