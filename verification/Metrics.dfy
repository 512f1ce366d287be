/** The job counters kept in memory. */
module Metrics {

  class MetricsRegistry {
    var jobsSubmitted: nat
    var jobsCompleted: nat
    var jobsFailed: nat

    constructor ()
      ensures jobsSubmitted == jobsCompleted == jobsFailed == 0
    {
      jobsSubmitted, jobsCompleted, jobsFailed := 0, 0, 0;
    }

    method IncSubmitted()
      modifies this
      ensures jobsSubmitted == old(jobsSubmitted) + 1 && unchanged(`jobsCompleted, `jobsFailed)
    {
      jobsSubmitted := jobsSubmitted + 1;
    }

    method IncCompleted()
      modifies this
      ensures jobsCompleted == old(jobsCompleted) + 1 && unchanged(`jobsSubmitted, `jobsFailed)
    {
      jobsCompleted := jobsCompleted + 1;
    }

    method IncFailed()
      modifies this
      ensures jobsFailed == old(jobsFailed) + 1 && unchanged(`jobsSubmitted, `jobsCompleted)
    {
      jobsFailed := jobsFailed + 1;
    }
  }
}
