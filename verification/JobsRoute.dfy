/** The route that submits a job: the use case, and the counter of submitted jobs. */
module JobsRoute {
  import opened JobModel
  import opened Metrics
  import opened SubmitJob

  class JobsRoute {
    const useCase: SubmitPipelineJobUseCase
    const metrics: MetricsRegistry
    ghost var requests: seq<Request>  // the requests so far

    /** The runs that `SubmitJob` is about, with one submission counted for each row. */
    ghost predicate Valid()
      reads this, useCase, useCase.repository, useCase.store, metrics
    {
      && OneAtATime(requests)
      && useCase.Now() == RunAll(useCase.store.ttlSeconds, requests).state
      && metrics.jobsSubmitted == NotReplays(RunAll(useCase.store.ttlSeconds, requests).replies)
      && metrics.jobsSubmitted == |useCase.repository.rows|
    }

    constructor (useCase: SubmitPipelineJobUseCase, metrics: MetricsRegistry)
      requires useCase.Now() == State(map[], map[], []) && metrics.jobsSubmitted == 0
      ensures Valid() && this.useCase == useCase && this.metrics == metrics && requests == []
    {
      this.useCase, this.metrics, requests := useCase, metrics, [];
    }

    /** The job submitted is counted if and only if the answer is not an earlier job. */
    method SubmitJob(q: Request) returns (reply: Reply)
      requires Valid() && OneAtATime(requests + [q])
      modifies this, useCase, useCase.repository, useCase.store, metrics
      ensures Valid() && requests == old(requests) + [q]
      ensures RunAll(useCase.store.ttlSeconds, requests).replies
           == RunAll(useCase.store.ttlSeconds, old(requests)).replies + [reply]
      ensures metrics.jobsSubmitted == old(metrics.jobsSubmitted) + if reply.isReplay then 0 else 1
    {
      NextJobIsNew(useCase.store.ttlSeconds, requests, q);
      OneMoreRequest(useCase.store.ttlSeconds, requests, q);
      reply := useCase.ExecuteRequest(q);
      if !reply.isReplay {
        metrics.IncSubmitted();
      }
      requests := requests + [q];
    }
  }

  /** What one more request adds to a run, and how many submissions that makes. */
  lemma OneMoreRequest(ttl: real, requests: seq<Request>, q: Request)
    requires OneAtATime(requests + [q])
    ensures var before, after := RunAll(ttl, requests), RunAll(ttl, requests + [q]);
            var (state, reply) := Execute(ttl, before.state, q);
            && after.state == state && after.replies == before.replies + [reply]
            && NotReplays(after.replies) == NotReplays(before.replies) + (if reply.isReplay then 0 else 1)
            && NotReplays(after.replies) == |state.rows|
  {
    var before := RunAll(ttl, requests);
    RunSnoc(ttl, requests, q);
    CountSnoc(before.replies, Execute(ttl, before.state, q).1);
    NotReplaysAreRows(ttl, requests + [q]);
  }

  lemma CountSnoc(replies: seq<Reply>, reply: Reply)
    ensures NotReplays(replies + [reply]) == NotReplays(replies) + if reply.isReplay then 0 else 1
  {
    assert (replies + [reply])[..|replies|] == replies;
  }
}
