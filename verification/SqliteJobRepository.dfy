/** Jobs in a SQLite table: every column a text or a number, times as ISO text. */
module SqliteJobRepository {
  import opened Wrappers
  import opened JobModel
  import IsoText

  datatype Row = Row(
    id: string,
    status: string,
    createdAt: string,
    startedAt: Option<string>,
    finishedAt: Option<string>,
    collectionTarget: int,
    collectedCount: Option<int>,
    classifiedCount: Option<int>,
    crmTasksCount: Option<int>,
    outputPath: Option<string>,
    errorMessage: Option<string>,
    correlationId: Option<string>)

  type Table = map<string, Row>

  function StatusText(status: JobStatus): (text: string) {
    match status
    case Pending => "pending"
    case Running => "running"
    case Completed => "completed"
    case Failed => "failed"
  }

  function ParseStatus(text: string): (status: Option<JobStatus>) {
    if text == "pending" then Some(Pending)
    else if text == "running" then Some(Running)
    else if text == "completed" then Some(Completed)
    else if text == "failed" then Some(Failed)
    else None
  }

  function TimeText(t: Option<Time>): (text: Option<string>) {
    if t.Some? then Some(IsoText.Iso(t.value)) else None
  }

  /** A missing or empty text is no time; an unreadable one is an error. */
  function ParseTime(text: Option<string>): (t: Option<Option<Time>>) {
    if text.None? || text.value == "" then Some(None)
    else
      var t :- IsoText.ParseIso(text.value);
      Some(Some(t))
  }

  function ToRow(job: PipelineJob): (row: Row) {
    Row(job.id, StatusText(job.status), IsoText.Iso(job.createdAt), TimeText(job.startedAt), TimeText(job.finishedAt),
        job.collectionTarget, job.collectedCount, job.classifiedCount, job.crmTasksCount,
        job.outputPath, job.errorMessage, job.correlationId)
  }

  /** `now` stands in for an empty creation time. */
  function FromRow(row: Row, now: Time): (job: Option<PipelineJob>) {
    var status :- ParseStatus(row.status);
    var createdAt :- ParseTime(Some(row.createdAt));
    var startedAt :- ParseTime(row.startedAt);
    var finishedAt :- ParseTime(row.finishedAt);
    Some(PipelineJob(row.id, status, if createdAt.Some? then createdAt.value else now, startedAt, finishedAt,
                     row.collectionTarget, row.collectedCount, row.classifiedCount, row.crmTasksCount,
                     row.outputPath, row.errorMessage, row.correlationId))
  }

  /** The columns of UPDATE ... SET, from the job's text form. */
  function SetColumns(row: Row, job: PipelineJob): (after: Row) {
    row.(status := StatusText(job.status), startedAt := TimeText(job.startedAt), finishedAt := TimeText(job.finishedAt),
         collectedCount := job.collectedCount, classifiedCount := job.classifiedCount,
         crmTasksCount := job.crmTasksCount, outputPath := job.outputPath, errorMessage := job.errorMessage)
  }

  predicate ValidTimes(job: PipelineJob) {
    && IsoText.Valid(job.createdAt)
    && (job.startedAt.Some? ==> IsoText.Valid(job.startedAt.value))
    && (job.finishedAt.Some? ==> IsoText.Valid(job.finishedAt.value))
  }

  lemma TimeRoundTrip(t: Option<Time>)
    requires t.Some? ==> IsoText.Valid(t.value)
    ensures ParseTime(TimeText(t)) == Some(t)
  {
    if t.Some? {
      IsoText.IsoRoundTrip(t.value);
    }
  }

  /** The four texts stand for the four states, and no other text for any. */
  lemma StatusRoundTrip(status: JobStatus, text: string)
    ensures ParseStatus(StatusText(status)) == Some(status)
    ensures ParseStatus(text).Some? ==> StatusText(ParseStatus(text).value) == text
    ensures StatusText(status) ==
            match status case Pending => "pending" case Running => "running" case Completed => "completed"
            case Failed => "failed"
  {
  }

  /** A job reads back from its row as it was. */
  lemma RowRoundTrip(job: PipelineJob, now: Time)
    requires ValidTimes(job)
    ensures FromRow(ToRow(job), now) == Some(job)
  {
    StatusRoundTrip(job.status, StatusText(job.status));
    TimeRoundTrip(Some(job.createdAt));
    TimeRoundTrip(job.startedAt);
    TimeRoundTrip(job.finishedAt);
    IsoText.IsoRoundTrip(job.createdAt);
  }

  /** The table that holds the rows of these jobs. */
  ghost function TableOf(rows: Rows): (table: Table) {
    map id | id in rows :: ToRow(rows[id])
  }

  /** Setting the columns of a row is updating the job it stands for. */
  lemma UpdateCommutes(rows: Rows, job: PipelineJob)
    requires job.id in rows
    ensures TableOf(UpdateRows(rows, job)) == TableOf(rows)[job.id := SetColumns(TableOf(rows)[job.id], job)]
  {
  }

  // ---------- Listing ----------

  function Shown(limit: int, n: nat): (k: nat) {
    if limit < 0 || limit > n then n else limit
  }

  /**
   ORDER BY ... DESC LIMIT, for the order `less`: the ids of as many rows as the limit shows, none
   twice, greatest first, no row left out greater than one shown. Ties may stand in any order.
   */
  ghost predicate Lists(known: set<string>, limit: int, ids: seq<string>, less: (string, string) -> bool) {
    && |ids| == Shown(limit, |known|)
    && (forall i :: 0 <= i < |ids| ==> ids[i] in known)
    && (forall i, j :: 0 <= i < j < |ids| ==> ids[i] != ids[j] && !less(ids[i], ids[j]))
    && (forall i, id :: 0 <= i < |ids| && id in known && id !in ids ==> !less(ids[i], id))
  }

  /** By the stored text of the creation time. */
  ghost function TextOrder(table: Table): (less: (string, string) -> bool) {
    (a, b) => a in table && b in table && IsoText.TextLess(table[a].createdAt, table[b].createdAt)
  }

  /** By the creation time itself. */
  ghost function TimeOrder(rows: Rows): (less: (string, string) -> bool) {
    (a, b) => a in rows && b in rows && IsoText.Instant(rows[a].createdAt) < IsoText.Instant(rows[b].createdAt)
  }

  lemma SameOrderSameLists(known: set<string>, limit: int, ids: seq<string>, a: (string, string) -> bool,
                           b: (string, string) -> bool)
    requires forall x, y :: x in known && y in known ==> a(x, y) == b(x, y)
    requires Lists(known, limit, ids, a)
    ensures Lists(known, limit, ids, b)
  {
  }

  lemma SameOrder(rows: Rows, a: string, b: string)
    requires forall id :: id in rows ==> ValidTimes(rows[id])
    requires a in rows && b in rows
    ensures TextOrder(TableOf(rows))(a, b) == TimeOrder(rows)(a, b)
  {
    IsoText.TextOrderIsTimeOrder(rows[a].createdAt, rows[b].createdAt);
  }

  /** An order by instants is spelled out. */
  lemma ListsByTime(rows: Rows, limit: int, ids: seq<string>)
    ensures Lists(rows.Keys, limit, ids, TimeOrder(rows))
       <==>
            && |ids| == (if 0 <= limit < |rows| then limit else |rows|)
            && (forall i :: 0 <= i < |ids| ==> ids[i] in rows)
            && (forall i, j :: 0 <= i < j < |ids| ==>
                  ids[i] != ids[j]
                  && IsoText.Instant(rows[ids[i]].createdAt) >= IsoText.Instant(rows[ids[j]].createdAt))
            && (forall i, id :: 0 <= i < |ids| && id in rows && id !in ids ==>
                  IsoText.Instant(rows[ids[i]].createdAt) >= IsoText.Instant(rows[id].createdAt))
  {
    assert |rows.Keys| == |rows|;
  }

  /**
   Ordering by the stored texts shows as many jobs as the limit allows, all if it is negative, none twice, the
   newest first, and no job left out is newer than one shown; and nothing else does.
   */
  lemma ListRecentIsNewestFirst(rows: Rows, limit: int, ids: seq<string>)
    requires forall id :: id in rows ==> ValidTimes(rows[id])
    ensures Lists(TableOf(rows).Keys, limit, ids, TextOrder(TableOf(rows)))
       <==>
            && |ids| == (if 0 <= limit < |rows| then limit else |rows|)
            && (forall i :: 0 <= i < |ids| ==> ids[i] in rows)
            && (forall i, j :: 0 <= i < j < |ids| ==>
                  ids[i] != ids[j]
                  && IsoText.Instant(rows[ids[i]].createdAt) >= IsoText.Instant(rows[ids[j]].createdAt))
            && (forall i, id :: 0 <= i < |ids| && id in rows && id !in ids ==>
                  IsoText.Instant(rows[ids[i]].createdAt) >= IsoText.Instant(rows[id].createdAt))
  {
    ListsByTime(rows, limit, ids);
    ListsByEither(rows, limit, ids);
  }

  lemma ListsByEither(rows: Rows, limit: int, ids: seq<string>)
    requires forall id :: id in rows ==> ValidTimes(rows[id])
    ensures Lists(TableOf(rows).Keys, limit, ids, TextOrder(TableOf(rows)))
       <==> Lists(rows.Keys, limit, ids, TimeOrder(rows))
  {
    assert TableOf(rows).Keys == rows.Keys;
    forall a, b | a in rows && b in rows
      ensures TextOrder(TableOf(rows))(a, b) == TimeOrder(rows)(a, b)
    {
      SameOrder(rows, a, b);
    }
    if Lists(rows.Keys, limit, ids, TextOrder(TableOf(rows))) {
      SameOrderSameLists(rows.Keys, limit, ids, TextOrder(TableOf(rows)), TimeOrder(rows));
    }
    if Lists(rows.Keys, limit, ids, TimeOrder(rows)) {
      SameOrderSameLists(rows.Keys, limit, ids, TimeOrder(rows), TextOrder(TableOf(rows)));
    }
  }

  /** The repository over the table; `rows` are the jobs the table stands for. */
  class SqliteJobRepository {
    var table: Table
    ghost var rows: Rows

    ghost predicate Valid()
      reads this
    {
      && table == TableOf(rows)
      && forall id :: id in rows ==> rows[id].id == id && ValidTimes(rows[id])
    }

    constructor ()
      ensures Valid() && rows == map[]
    {
      table, rows := map[], map[];
      new;
      assert table == TableOf(rows);
    }

    /** The primary key refuses an id that is taken, and the table stays as it was. */
    method Create(job: PipelineJob) returns (ok: bool)
      requires Valid() && ValidTimes(job)
      modifies this
      ensures Valid() && (ok <==> job.id !in old(rows))
      ensures rows == if ok then old(rows)[job.id := job] else old(rows)
    {
      if job.id in table {
        return false;
      }
      table := table[job.id := ToRow(job)];
      rows := rows[job.id := job];
      return true;
    }

    method Get(id: string, now: Time) returns (job: Option<PipelineJob>)
      requires Valid()
      ensures job == if id in rows then Some(rows[id]) else None
    {
      if id !in table {
        return None;
      }
      RowRoundTrip(rows[id], now);
      return FromRow(table[id], now);
    }

    method Update(job: PipelineJob)
      requires Valid() && ValidTimes(job)
      modifies this
      ensures Valid() && rows == UpdateRows(old(rows), job)
      ensures job.id !in old(rows) ==> rows == old(rows)
      ensures job.id in old(rows) && SameOrigin(old(rows)[job.id], job) ==> rows == old(rows)[job.id := job]
    {
      if job.id in table {
        if SameOrigin(rows[job.id], job) {
          UpdateReplaces(rows, job);
        }
        UpdateCommutes(rows, job);
        table := table[job.id := SetColumns(table[job.id], job)];
      }
      rows := UpdateRows(rows, job);
    }
  }
}
