/** Pipeline jobs and the repository that keeps them. */
module JobModel {
  import opened Wrappers
  import IsoText

  type Time = IsoText.DateTime

  datatype JobStatus = Pending | Running | Completed | Failed

  datatype PipelineJob = PipelineJob(
    id: string,
    status: JobStatus,
    createdAt: Time,
    startedAt: Option<Time>,
    finishedAt: Option<Time>,
    collectionTarget: int,
    collectedCount: Option<int>,
    classifiedCount: Option<int>,
    crmTasksCount: Option<int>,
    outputPath: Option<string>,
    errorMessage: Option<string>,
    correlationId: Option<string>)

  type Rows = map<string, PipelineJob>

  /** A job as the API makes it. */
  predicate IsNew(job: PipelineJob) {
    && job.status == Pending
    && job.startedAt.None? && job.finishedAt.None?
    && job.collectedCount.None? && job.classifiedCount.None? && job.crmTasksCount.None?
    && job.outputPath.None? && job.errorMessage.None?
  }

  /** The columns an update leaves as they were inserted. */
  predicate SameOrigin(a: PipelineJob, b: PipelineJob) {
    && a.id == b.id && a.createdAt == b.createdAt
    && a.collectionTarget == b.collectionTarget && a.correlationId == b.correlationId
  }

  /** UPDATE ... WHERE id = job.id: the columns it names, in the row it finds. */
  function UpdateRows(rows: Rows, job: PipelineJob): (after: Rows) {
    if job.id !in rows then rows
    else
      rows[job.id := rows[job.id].(
        status := job.status, startedAt := job.startedAt, finishedAt := job.finishedAt,
        collectedCount := job.collectedCount, classifiedCount := job.classifiedCount,
        crmTasksCount := job.crmTasksCount, outputPath := job.outputPath, errorMessage := job.errorMessage)]
  }

  /** An update of a row by a changed copy of itself replaces the row. */
  lemma UpdateReplaces(rows: Rows, job: PipelineJob)
    requires job.id in rows && SameOrigin(rows[job.id], job)
    ensures UpdateRows(rows, job) == rows[job.id := job]
  {
  }

  class JobRepository {
    var rows: Rows

    constructor ()
      ensures rows == map[]
    {
      rows := map[];
    }

    /** The primary key refuses an id that is taken. */
    method Create(job: PipelineJob)
      requires job.id !in rows
      modifies this
      ensures rows == old(rows)[job.id := job]
    {
      rows := rows[job.id := job];
    }

    method Get(id: string) returns (job: Option<PipelineJob>)
      ensures job == if id in rows then Some(rows[id]) else None
    {
      return if id in rows then Some(rows[id]) else None;
    }

    method Update(job: PipelineJob)
      modifies this
      ensures rows == UpdateRows(old(rows), job)
    {
      rows := UpdateRows(rows, job);
    }
  }
}
