/**
 The life of a job after it is accepted: a row is created and its id queued; some worker fetches it,
 marks it running, runs the pipeline, writes the outcome and reports it to the counters. Any number
 of workers interleave; each id is dispatched once.
 */
module WorkerLifecycle {
  import opened Wrappers
  import opened JobModel
  import opened Metrics
  import Runs
  import SetFacts

  datatype Result =
    | Succeeded(collected: int, classified: int, crmTasks: int, outputPath: Option<string>)
    | Raised(message: string)

  /** Where a job is; from `Held` to `Finished` a worker has it, with its own copy of the row. */
  datatype Place =
    | Created
    | Queued
    | Held(job: PipelineJob)
    | Started(job: PipelineJob)
    | Finished(success: bool)
    | Reported(success: bool)

  datatype State = State(rows: Rows, places: map<string, Place>, completed: nat, failed: nat)

  datatype Event =
    | CreateRow(job: PipelineJob)
    | Enqueue(id: string)
    | Fetch(id: string)
    | Start(id: string, at: Time)
    | Finish(id: string, result: Result, at: Time)
    | Report(id: string)

  function Empty(): (s: State) {
    State(map[], map[], 0, 0)
  }

  predicate Enabled(s: State, e: Event) {
    match e
    case CreateRow(job) => IsNew(job) && job.id !in s.rows && job.id !in s.places
    case Enqueue(id) => id in s.places && s.places[id].Created?
    case Fetch(id) => id in s.places && s.places[id].Queued? && id in s.rows
    case Start(id, _) => id in s.places && s.places[id].Held?
    case Finish(id, _, _) => id in s.places && s.places[id].Started?
    case Report(id) => id in s.places && s.places[id].Finished?
  }

  function MarkRunning(job: PipelineJob, at: Time): (after: PipelineJob) {
    job.(status := Running, startedAt := Some(at))
  }

  function MarkFinished(job: PipelineJob, result: Result, at: Time): (after: PipelineJob) {
    match result
    case Succeeded(collected, classified, crmTasks, outputPath) =>
      job.(status := Completed, collectedCount := Some(collected), classifiedCount := Some(classified),
           crmTasksCount := Some(crmTasks), outputPath := outputPath, finishedAt := Some(at))
    case Raised(message) =>
      job.(status := Failed, errorMessage := Some(message), finishedAt := Some(at))
  }

  function Next(s: State, e: Event): (t: State)
    requires Enabled(s, e)
  {
    match e
    case CreateRow(job) => s.(rows := s.rows[job.id := job], places := s.places[job.id := Created])
    case Enqueue(id) => s.(places := s.places[id := Queued])
    case Fetch(id) => s.(places := s.places[id := Held(s.rows[id])])
    case Start(id, at) =>
      var job := MarkRunning(s.places[id].job, at);
      s.(rows := UpdateRows(s.rows, job), places := s.places[id := Started(job)])
    case Finish(id, result, at) =>
      var job := MarkFinished(s.places[id].job, result, at);
      s.(rows := UpdateRows(s.rows, job), places := s.places[id := Finished(result.Succeeded?)])
    case Report(id) =>
      var success := s.places[id].success;
      s.(places := s.places[id := Reported(success)],
         completed := if success then s.completed + 1 else s.completed,
         failed := if success then s.failed else s.failed + 1)
  }

  function NextOf(): (next: (State, Event) -> State) {
    (s, e) => if Enabled(s, e) then Next(s, e) else s
  }

  predicate IsRun(s: State, run: seq<Event>) {
    Runs.IsRun(Enabled, NextOf(), s, run)
  }

  function After(s: State, run: seq<Event>): (t: State) {
    Runs.After(NextOf(), s, run)
  }

  // ---------- What every step keeps ----------

  /** Results appear only on completed rows, messages only on failed ones, and always there. */
  ghost predicate RowInv(row: PipelineJob) {
    && (row.status == Completed <==> row.collectedCount.Some?)
    && (row.status == Completed <==> row.classifiedCount.Some?)
    && (row.status == Completed <==> row.crmTasksCount.Some?)
    && (row.status == Failed <==> row.errorMessage.Some?)
    && (row.outputPath.Some? ==> row.status == Completed)
    && (row.status == Pending <==> row.startedAt.None?)
    && (row.finishedAt.Some? <==> row.status == Completed || row.status == Failed)
  }

  ghost predicate PlaceInv(row: PipelineJob, place: Place) {
    match place
    case Created => row.status == Pending
    case Queued => row.status == Pending
    case Held(job) => row.status == Pending && job == row
    case Started(job) => row.status == Running && job == row
    case Finished(success) => row.status == if success then Completed else Failed
    case Reported(success) => row.status == if success then Completed else Failed
  }

  function ReportedAs(places: map<string, Place>, success: bool): (ids: set<string>) {
    set id | id in places && places[id] == Reported(success)
  }

  ghost predicate JobInv(id: string, row: PipelineJob, place: Place) {
    row.id == id && RowInv(row) && PlaceInv(row, place)
  }

  ghost predicate CountersInv(s: State) {
    s.completed == |ReportedAs(s.places, true)| && s.failed == |ReportedAs(s.places, false)|
  }

  ghost predicate Inv(s: State) {
    && s.places.Keys == s.rows.Keys
    && (forall id :: id in s.rows ==> JobInv(id, s.rows[id], s.places[id]))
    && CountersInv(s)
  }

  lemma ReportedAfter(places: map<string, Place>, id: string, place: Place, success: bool)
    requires id in places ==> !places[id].Reported?
    ensures id !in ReportedAs(places, success)
    ensures ReportedAs(places[id := place], success)
         == if place == Reported(success) then ReportedAs(places, success) + {id} else ReportedAs(places, success)
  {
  }

  /** What a step does to the row and the place of its job. */
  lemma NextOfJob(s: State, e: Event) returns (id: string, row: PipelineJob, place: Place)
    requires Inv(s) && Enabled(s, e)
    ensures Next(s, e).rows == s.rows[id := row] && Next(s, e).places == s.places[id := place]
    ensures JobInv(id, row, place) && id == if e.CreateRow? then e.job.id else e.id
  {
    match e
    case CreateRow(job) => id, row, place := job.id, job, Created;
    case Enqueue(i) => id, row, place := i, s.rows[i], Queued;
    case Fetch(i) => id, row, place := i, s.rows[i], Held(s.rows[i]);
    case Start(i, at) =>
      assert JobInv(i, s.rows[i], s.places[i]);
      id, row := i, MarkRunning(s.rows[i], at);
      place := Started(row);
      UpdateReplaces(s.rows, row);
    case Finish(i, result, at) =>
      assert JobInv(i, s.rows[i], s.places[i]);
      id, row, place := i, MarkFinished(s.rows[i], result, at), Finished(result.Succeeded?);
      UpdateReplaces(s.rows, row);
    case Report(i) => id, row, place := i, s.rows[i], Reported(s.places[i].success);
  }

  /** No job is reported twice, and only a report changes a counter. */
  lemma NextCounts(s: State, e: Event, id: string, place: Place)
    requires Enabled(s, e) && Next(s, e).places == s.places[id := place]
    requires id == if e.CreateRow? then e.job.id else e.id
    ensures id in s.places ==> !s.places[id].Reported?
    ensures Next(s, e).places[id] == place
    ensures Next(s, e).completed == s.completed + if place == Reported(true) then 1 else 0
    ensures Next(s, e).failed == s.failed + if place == Reported(false) then 1 else 0
  {
  }

  lemma NextKeepsCounters(s: State, e: Event, id: string, place: Place)
    requires CountersInv(s) && Enabled(s, e) && Next(s, e).places == s.places[id := place]
    requires id == if e.CreateRow? then e.job.id else e.id
    ensures CountersInv(Next(s, e))
  {
    NextCounts(s, e, id, place);
    ReportedAfter(s.places, id, place, true);
    ReportedAfter(s.places, id, place, false);
  }

  lemma NextKeepsInv(s: State, e: Event)
    requires Inv(s) && Enabled(s, e)
    ensures Inv(Next(s, e))
  {
    var id, row, place := NextOfJob(s, e);
    NextKeepsCounters(s, e, id, place);
  }

  /** The only changes of a row: pending to running, running to completed or failed. */
  predicate Moves(a: PipelineJob, b: PipelineJob) {
    || a == b
    || (a.status == Pending && b.status == Running && SameOrigin(a, b))
    || (a.status == Running && (b.status == Completed || b.status == Failed) && SameOrigin(a, b)
        && b.startedAt == a.startedAt)
  }

  lemma NextMovesRows(s: State, e: Event)
    requires Inv(s) && Enabled(s, e)
    ensures forall id :: id in s.rows ==> id in Next(s, e).rows && Moves(s.rows[id], Next(s, e).rows[id])
  {
    var id, row, place := NextOfJob(s, e);
    assert id in s.rows ==> JobInv(id, s.rows[id], s.places[id]);
  }

  /** What a whole run may do to a row. */
  predicate Progresses(a: PipelineJob, b: PipelineJob) {
    && SameOrigin(a, b)
    && (b.status == Pending ==> a == b)
    && (b.status == Running ==> a == b || a.status == Pending)
    && (a.status == Completed || a.status == Failed ==> a == b)
  }

  lemma {:induction false} RunKeepsInv(s: State, run: seq<Event>)
    requires Inv(s) && IsRun(s, run)
    ensures Inv(After(s, run))
    ensures forall id :: id in s.rows ==> id in After(s, run).rows && Progresses(s.rows[id], After(s, run).rows[id])
    decreases |run|
  {
    if run == [] {
    } else {
      NextKeepsInv(s, run[0]);
      NextMovesRows(s, run[0]);
      var t := Next(s, run[0]);
      RunKeepsInv(t, run[1..]);
      forall id | id in s.rows
        ensures id in After(t, run[1..]).rows && Progresses(s.rows[id], After(t, run[1..]).rows[id])
      {
        assert Moves(s.rows[id], t.rows[id]) && Progresses(t.rows[id], After(t, run[1..]).rows[id]);
      }
    }
  }

  /** Rows never vanish, move only forward, and never change once they are terminal. */
  lemma RowsOnlyMoveForward(before: seq<Event>, more: seq<Event>, id: string)
    requires IsRun(Empty(), before) && IsRun(After(Empty(), before), more)
    requires id in After(Empty(), before).rows
    ensures var s, t := After(Empty(), before), After(After(Empty(), before), more);
            id in t.rows && Progresses(s.rows[id], t.rows[id]) && RowInv(t.rows[id])
  {
    RunKeepsInv(Empty(), before);
    RunKeepsInv(After(Empty(), before), more);
  }

  ghost predicate Quiescent(s: State) {
    forall id :: id in s.places ==> s.places[id].Reported?
  }

  function WithStatus(rows: Rows, status: JobStatus): (ids: set<string>) {
    set id | id in rows && rows[id].status == status
  }

  /** The counters never run ahead of the rows. */
  lemma CountersNeverRunAhead(run: seq<Event>)
    requires IsRun(Empty(), run)
    ensures var t := After(Empty(), run);
            t.completed <= |WithStatus(t.rows, Completed)| && t.failed <= |WithStatus(t.rows, Failed)|
  {
    RunKeepsInv(Empty(), run);
    var t := After(Empty(), run);
    SetFacts.SubsetSize(ReportedAs(t.places, true), WithStatus(t.rows, Completed));
    SetFacts.SubsetSize(ReportedAs(t.places, false), WithStatus(t.rows, Failed));
  }

  /** When nothing is left to do, every row is terminal and each counter is the number of rows it counts. */
  lemma QuiescentCountersAreExact(run: seq<Event>)
    requires IsRun(Empty(), run) && Quiescent(After(Empty(), run))
    ensures var t := After(Empty(), run);
            && t.completed == |WithStatus(t.rows, Completed)|
            && t.failed == |WithStatus(t.rows, Failed)|
            && t.completed + t.failed == |t.rows|
            && forall id :: id in t.rows ==> t.rows[id].status == Completed || t.rows[id].status == Failed
  {
    RunKeepsInv(Empty(), run);
    QuiescentCounts(After(Empty(), run));
  }

  lemma AllReported(s: State, success: bool)
    requires Inv(s) && Quiescent(s)
    ensures ReportedAs(s.places, success) == WithStatus(s.rows, if success then Completed else Failed)
    ensures forall id :: id in s.rows ==> s.rows[id].status == Completed || s.rows[id].status == Failed
  {
    forall id | id in s.rows
      ensures id in ReportedAs(s.places, success) <==> id in WithStatus(s.rows, if success then Completed else Failed)
      ensures s.rows[id].status == Completed || s.rows[id].status == Failed
    {
      assert JobInv(id, s.rows[id], s.places[id]) && s.places[id].Reported?;
    }
  }

  lemma QuiescentCounts(s: State)
    requires Inv(s) && Quiescent(s)
    ensures s.completed == |WithStatus(s.rows, Completed)| && s.failed == |WithStatus(s.rows, Failed)|
    ensures s.completed + s.failed == |s.rows|
    ensures forall id :: id in s.rows ==> s.rows[id].status == Completed || s.rows[id].status == Failed
  {
    AllReported(s, true);
    AllReported(s, false);
    EveryRowCounted(s.rows);
  }

  lemma EveryRowCounted(rows: Rows)
    requires forall id :: id in rows ==> rows[id].status == Completed || rows[id].status == Failed
    ensures |WithStatus(rows, Completed)| + |WithStatus(rows, Failed)| == |rows|
  {
    var completed, failed := WithStatus(rows, Completed), WithStatus(rows, Failed);
    assert rows.Keys == completed + failed && completed !! failed;
  }

  // ---------- What a finished row holds ----------

  /** The values a run of the pipeline leaves in its row, field by field. */
  predicate HoldsResult(row: PipelineJob, result: Result, finishAt: Time) {
    && row.finishedAt == Some(finishAt)
    && match result
       case Succeeded(collected, classified, crmTasks, outputPath) =>
         && row.status == Completed && row.errorMessage.None?
         && row.collectedCount == Some(collected) && row.classifiedCount == Some(classified)
         && row.crmTasksCount == Some(crmTasks) && row.outputPath == outputPath
       case Raised(message) =>
         && row.status == Failed && row.errorMessage == Some(message)
         && row.collectedCount.None? && row.classifiedCount.None? && row.crmTasksCount.None? && row.outputPath.None?
  }

  predicate IsTerminal(row: PipelineJob) {
    row.status == Completed || row.status == Failed
  }

  /** A finish writes its own values, and keeps the start. */
  lemma FinishWrites(s: State, id: string, result: Result, at: Time)
    requires Inv(s) && Enabled(s, Finish(id, result, at))
    ensures var t := Next(s, Finish(id, result, at));
            && id in s.rows && id in t.rows && HoldsResult(t.rows[id], result, at)
            && t.rows[id].startedAt == s.rows[id].startedAt
  {
    assert JobInv(id, s.rows[id], s.places[id]);
    UpdateReplaces(s.rows, MarkFinished(s.rows[id], result, at));
  }

  lemma StartWrites(s: State, id: string, at: Time)
    requires Inv(s) && Enabled(s, Start(id, at))
    ensures var t := Next(s, Start(id, at));
            id in s.rows && id in t.rows && t.rows[id].status == Running && t.rows[id].startedAt == Some(at)
  {
    assert JobInv(id, s.rows[id], s.places[id]);
    UpdateReplaces(s.rows, MarkRunning(s.rows[id], at));
  }

  /** Only a finish of its own makes a row terminal, and only a start of its own takes it out of pending. */
  lemma OnlyOwnStepsMove(s: State, e: Event, id: string)
    requires Inv(s) && Enabled(s, e) && id in Next(s, e).rows
    ensures IsTerminal(Next(s, e).rows[id]) && !(id in s.rows && IsTerminal(s.rows[id])) ==> e.Finish? && e.id == id
    ensures Next(s, e).rows[id].status != Pending && (id !in s.rows || s.rows[id].status == Pending) ==>
      e.Start? && e.id == id
    ensures id !in s.rows ==> e == CreateRow(Next(s, e).rows[id])
  {
    var i, row, place := NextOfJob(s, e);
    assert id in s.rows ==> JobInv(id, s.rows[id], s.places[id]);
  }

  lemma RowIsKept(s: State, run: seq<Event>, id: string)
    requires Inv(s) && IsRun(s, run) && id in s.rows
    ensures s.rows[id].id == id
    ensures id in After(s, run).rows && Progresses(s.rows[id], After(s, run).rows[id])
  {
    assert JobInv(id, s.rows[id], s.places[id]);
    RunKeepsInv(s, run);
  }

  /** A terminal row holds exactly the values of a finish of its own. */
  lemma {:induction false} TerminalRowHoldsItsFinish(s: State, run: seq<Event>, id: string) returns (k: nat)
    requires Inv(s) && IsRun(s, run) && id in After(s, run).rows && IsTerminal(After(s, run).rows[id])
    requires id in s.rows ==> !IsTerminal(s.rows[id])
    ensures k < |run| && run[k].Finish? && run[k].id == id
    ensures HoldsResult(After(s, run).rows[id], run[k].result, run[k].at)
    decreases |run|
  {
    var t := Next(s, run[0]);
    NextKeepsInv(s, run[0]);
    if id in t.rows && IsTerminal(t.rows[id]) {
      OnlyOwnStepsMove(s, run[0], id);
      FinishWrites(s, id, run[0].result, run[0].at);
      RowIsKept(t, run[1..], id);
      k := 0;
    } else {
      k := TerminalRowHoldsItsFinish(t, run[1..], id);
      k := k + 1;
    }
  }

  /** What follows never changes when a row started. */
  lemma {:induction false} StartIsKept(s: State, run: seq<Event>, id: string)
    requires Inv(s) && IsRun(s, run) && id in s.rows && s.rows[id].status != Pending
    ensures id in After(s, run).rows && After(s, run).rows[id].startedAt == s.rows[id].startedAt
    decreases |run|
  {
    if run == [] {
    } else {
      NextKeepsInv(s, run[0]);
      NextMovesRows(s, run[0]);
      StartIsKept(Next(s, run[0]), run[1..], id);
    }
  }

  /** A row that is not pending holds the time of a start of its own. */
  lemma {:induction false} StartedRowHoldsItsStart(s: State, run: seq<Event>, id: string) returns (k: nat)
    requires Inv(s) && IsRun(s, run) && id in After(s, run).rows && After(s, run).rows[id].status != Pending
    requires id in s.rows ==> s.rows[id].status == Pending
    ensures k < |run| && run[k].Start? && run[k].id == id
    ensures After(s, run).rows[id].startedAt == Some(run[k].at)
    decreases |run|
  {
    var t := Next(s, run[0]);
    NextKeepsInv(s, run[0]);
    if id in t.rows && t.rows[id].status != Pending {
      OnlyOwnStepsMove(s, run[0], id);
      StartWrites(s, id, run[0].at);
      StartIsKept(t, run[1..], id);
      k := 0;
    } else {
      k := StartedRowHoldsItsStart(t, run[1..], id);
      k := k + 1;
    }
  }

  /** A row has the id, creation time, target and correlation id it was created with. */
  lemma {:induction false} RowHoldsItsOrigin(s: State, run: seq<Event>, id: string) returns (k: nat)
    requires Inv(s) && IsRun(s, run) && id in After(s, run).rows && id !in s.rows
    ensures k < |run| && run[k].CreateRow? && run[k].job.id == id
    ensures SameOrigin(run[k].job, After(s, run).rows[id])
    decreases |run|
  {
    var t := Next(s, run[0]);
    NextKeepsInv(s, run[0]);
    if id in t.rows {
      OnlyOwnStepsMove(s, run[0], id);
      RowIsKept(t, run[1..], id);
      k := 0;
    } else {
      k := RowHoldsItsOrigin(t, run[1..], id);
      k := k + 1;
    }
  }

  /** Over whole runs: every terminal row tells its own creation, start and finish. */
  lemma TerminalRowTellsItsStory(run: seq<Event>, id: string) returns (created: nat, started: nat, finished: nat)
    requires IsRun(Empty(), run) && id in After(Empty(), run).rows && IsTerminal(After(Empty(), run).rows[id])
    ensures created < |run| && run[created].CreateRow? && run[created].job.id == id
    ensures started < |run| && run[started].Start? && run[started].id == id
    ensures finished < |run| && run[finished].Finish? && run[finished].id == id
    ensures var row := After(Empty(), run).rows[id];
            && SameOrigin(run[created].job, row) && row.startedAt == Some(run[started].at)
            && HoldsResult(row, run[finished].result, run[finished].at)
  {
    created := RowHoldsItsOrigin(Empty(), run, id);
    started := StartedRowHoldsItsStart(Empty(), run, id);
    finished := TerminalRowHoldsItsFinish(Empty(), run, id);
  }

  // ---------- Progress ----------

  /** The steps a job still needs until it is reported. */
  function Left(place: Place): (steps: nat) {
    match place
    case Created => 5
    case Queued => 4
    case Held(_) => 3
    case Started(_) => 2
    case Finished(_) => 1
    case Reported(_) => 0
  }

  function WithLeft(places: map<string, Place>, steps: nat): (ids: set<string>) {
    set id | id in places && Left(places[id]) >= steps
  }

  /** The steps all jobs still need: a job that needs n is counted n times. */
  function StepsLeft(s: State): (steps: nat) {
    |WithLeft(s.places, 1)| + |WithLeft(s.places, 2)| + |WithLeft(s.places, 3)| + |WithLeft(s.places, 4)|
    + |WithLeft(s.places, 5)|
  }

  lemma OneStepLess(places: map<string, Place>, id: string, place: Place, steps: nat)
    requires id in places && Left(places[id]) == Left(place) + 1
    ensures |WithLeft(places[id := place], steps)|
         == |WithLeft(places, steps)| - if steps == Left(places[id]) then 1 else 0
  {
    var before, after := WithLeft(places, steps), WithLeft(places[id := place], steps);
    if steps == Left(places[id]) {
      assert before == after + {id};
    } else {
      assert before == after;
    }
  }

  lemma NextLowersLeft(s: State, e: Event, id: string, place: Place)
    requires Enabled(s, e) && !e.CreateRow? && id == e.id && Next(s, e).places == s.places[id := place]
    ensures Left(s.places[id]) == Left(place) + 1
  {
    assert Next(s, e).places[id] == place;
  }

  /** Every step but the creation of a row brings one job one step closer to its report. */
  lemma StepLowersLeft(s: State, e: Event)
    requires Inv(s) && Enabled(s, e) && !e.CreateRow?
    ensures StepsLeft(Next(s, e)) == StepsLeft(s) - 1
  {
    var id, row, place := NextOfJob(s, e);
    NextLowersLeft(s, e, id, place);
    OneStepLess(s.places, id, place, 1);
    OneStepLess(s.places, id, place, 2);
    OneStepLess(s.places, id, place, 3);
    OneStepLess(s.places, id, place, 4);
    OneStepLess(s.places, id, place, 5);
  }

  lemma NothingLeft(s: State)
    ensures StepsLeft(s) == 0 <==> Quiescent(s)
  {
    if Quiescent(s) {
      assert forall n: nat :: n >= 1 ==> WithLeft(s.places, n) == {};
    } else {
      var id :| id in s.places && !s.places[id].Reported?;
      assert id in WithLeft(s.places, 1);
    }
  }

  /** As long as anything is left to do, some step can be taken. */
  lemma NeverStuck(s: State) returns (e: Event)
    requires Inv(s) && !Quiescent(s)
    ensures Enabled(s, e) && !e.CreateRow?
  {
    var id :| id in s.places && !s.places[id].Reported?;
    match s.places[id]
    case Created => e := Enqueue(id);
    case Queued => e := Fetch(id);
    case Held(_) => e := Start(id, s.rows[id].createdAt);
    case Started(_) => e := Finish(id, Raised(""), s.rows[id].createdAt);
    case Finished(_) => e := Report(id);
  }

  ghost predicate WorkersOnly(run: seq<Event>) {
    forall i :: 0 <= i < |run| ==> !run[i].CreateRow?
  }

  /**
   However the workers take turns, without new rows they make at most as many steps as are left, and
   they are done exactly when they have made that many.
   */
  lemma {:induction false} WorkersFinish(s: State, run: seq<Event>)
    requires Inv(s) && IsRun(s, run) && WorkersOnly(run)
    ensures |run| == StepsLeft(s) - StepsLeft(After(s, run))
    ensures Quiescent(After(s, run)) <==> |run| == StepsLeft(s)
    decreases |run|
  {
    NothingLeft(After(s, run));
    if run == [] {
    } else {
      NextKeepsInv(s, run[0]);
      StepLowersLeft(s, run[0]);
      WorkersFinish(Next(s, run[0]), run[1..]);
    }
  }

  /** Any run the workers have begun can be continued by worker steps until nothing is left. */
  lemma {:induction false} WorkersCanFinish(s: State) returns (run: seq<Event>)
    requires Inv(s)
    ensures IsRun(s, run) && WorkersOnly(run) && Quiescent(After(s, run))
    decreases StepsLeft(s)
  {
    NothingLeft(s);
    run := [];
    if !Quiescent(s) {
      var e := NeverStuck(s);
      NextKeepsInv(s, e);
      StepLowersLeft(s, e);
      run := WorkersCanFinish(Next(s, e));
      run := StepFirst(s, e, run);
    }
  }

  lemma StepFirst(s: State, e: Event, rest: seq<Event>) returns (run: seq<Event>)
    requires Enabled(s, e) && !e.CreateRow? && IsRun(Next(s, e), rest) && WorkersOnly(rest)
    ensures IsRun(s, run) && WorkersOnly(run) && After(s, run) == After(Next(s, e), rest)
  {
    run := [e] + rest;
    assert run[1..] == rest;
  }

  /** No job needs more than five steps. */
  lemma FiveStepsAJob(s: State)
    requires Inv(s)
    ensures StepsLeft(s) <= 5 * |s.rows|
  {
    forall n: nat
      ensures |WithLeft(s.places, n)| <= |s.rows.Keys|
    {
      SetFacts.SubsetSize(WithLeft(s.places, n), s.rows.Keys);
    }
  }

  // ---------- One worker ----------

  /** An undisturbed execution, step by step. */
  function ExecuteAlone(s: State, id: string, startAt: Time, result: Result, finishAt: Time): (t: State)
    requires Enabled(s, Fetch(id))
  {
    Next(Next(Next(Next(s, Fetch(id)), Start(id, startAt)), Finish(id, result, finishAt)), Report(id))
  }

  lemma StartRewritesRow(s: State, id: string, at: Time)
    requires Inv(s) && Enabled(s, Fetch(id))
    ensures var running := MarkRunning(s.rows[id], at);
            Next(Next(s, Fetch(id)), Start(id, at)) ==
            s.(rows := s.rows[id := running], places := s.places[id := Started(running)])
  {
    assert JobInv(id, s.rows[id], s.places[id]);
    UpdateReplaces(s.rows, MarkRunning(s.rows[id], at));
    assert s.places[id := Held(s.rows[id])][id := Started(MarkRunning(s.rows[id], at))]
        == s.places[id := Started(MarkRunning(s.rows[id], at))];
  }

  lemma FinishRewritesRow(s: State, id: string, result: Result, at: Time)
    requires id in s.rows && id in s.places && s.places[id] == Started(s.rows[id]) && s.rows[id].id == id
    ensures var done, success := MarkFinished(s.rows[id], result, at), result.Succeeded?;
            Next(Next(s, Finish(id, result, at)), Report(id)) ==
            State(s.rows[id := done], s.places[id := Reported(success)],
                  if success then s.completed + 1 else s.completed,
                  if success then s.failed else s.failed + 1)
  {
  }

  lemma ExecuteAloneRewritesRow(s: State, id: string, startAt: Time, result: Result, finishAt: Time)
    requires Inv(s) && Enabled(s, Fetch(id))
    ensures var t, success := ExecuteAlone(s, id, startAt, result, finishAt), result.Succeeded?;
            && t.rows == s.rows[id := MarkFinished(MarkRunning(s.rows[id], startAt), result, finishAt)]
            && HoldsResult(t.rows[id], result, finishAt) && t.rows[id].startedAt == Some(startAt)
            && SameOrigin(s.rows[id], t.rows[id])
            && t.places == s.places[id := Reported(success)]
            && t.completed == (if success then s.completed + 1 else s.completed)
            && t.failed == (if success then s.failed else s.failed + 1)
  {
    assert JobInv(id, s.rows[id], s.places[id]);
    StartRewritesRow(s, id, startAt);
    FinishRewritesRow(Next(Next(s, Fetch(id)), Start(id, startAt)), id, result, finishAt);
  }

  lemma ExecuteAloneKeepsInv(s: State, id: string, startAt: Time, result: Result, finishAt: Time)
    requires Inv(s) && Enabled(s, Fetch(id))
    ensures Inv(ExecuteAlone(s, id, startAt, result, finishAt))
  {
    var fetched := Next(s, Fetch(id));
    NextKeepsInv(s, Fetch(id));
    var started := Next(fetched, Start(id, startAt));
    NextKeepsInv(fetched, Start(id, startAt));
    var finished := Next(started, Finish(id, result, finishAt));
    NextKeepsInv(started, Finish(id, result, finishAt));
    NextKeepsInv(finished, Report(id));
  }

  /** Creating a row and queueing its id, one after the other. */
  lemma SubmitAlone(s: State, job: PipelineJob)
    requires Inv(s) && Enabled(s, CreateRow(job))
    ensures var t := Next(Next(s, CreateRow(job)), Enqueue(job.id));
            Inv(t) && t == s.(rows := s.rows[job.id := job], places := s.places[job.id := Queued])
  {
    NextKeepsInv(s, CreateRow(job));
    NextKeepsInv(Next(s, CreateRow(job)), Enqueue(job.id));
    assert s.places[job.id := Created][job.id := Queued] == s.places[job.id := Queued];
  }

  /** The queue holds exactly once each job that waits in it. */
  ghost predicate QueueInv(queue: seq<string>, places: map<string, Place>) {
    && (forall i :: 0 <= i < |queue| ==> queue[i] in places && places[queue[i]] == Queued)
    && (forall i, j :: 0 <= i < j < |queue| ==> queue[i] != queue[j])
    && (forall id :: id in places && places[id] == Queued ==> id in queue)
  }

  lemma PushKeepsQueue(queue: seq<string>, places: map<string, Place>, id: string)
    requires QueueInv(queue, places) && id !in places
    ensures QueueInv(queue + [id], places[id := Queued])
  {
  }

  lemma PopKeepsQueue(queue: seq<string>, places: map<string, Place>, place: Place)
    requires QueueInv(queue, places) && queue != [] && place != Queued
    ensures QueueInv(queue[1..], places[queue[0] := place])
  {
  }

  class PipelineJobRunner {
    const repository: JobRepository
    const metrics: MetricsRegistry
    var queue: seq<string>
    ghost var places: map<string, Place>

    /** The state of the machine above that this runner is in. */
    ghost function Now(): (s: State)
      reads this, repository, metrics
    {
      State(repository.rows, places, metrics.jobsCompleted, metrics.jobsFailed)
    }

    ghost predicate Valid()
      reads this, repository, metrics
    {
      Inv(Now()) && QueueInv(queue, places)
    }

    constructor (repository: JobRepository, metrics: MetricsRegistry)
      requires repository.rows == map[] && metrics.jobsCompleted == 0 && metrics.jobsFailed == 0
      ensures Valid() && Now() == Empty() && queue == []
      ensures this.repository == repository && this.metrics == metrics
    {
      this.repository, this.metrics, queue, places := repository, metrics, [], map[];
      new;
      assert ReportedAs(places, true) == {} && ReportedAs(places, false) == {};
    }

    method Submit(job: PipelineJob)
      requires Valid() && IsNew(job) && job.id !in repository.rows
      modifies this, repository
      ensures Valid() && queue == old(queue) + [job.id]
      ensures Now() == Next(Next(old(Now()), CreateRow(job)), Enqueue(job.id))
    {
      SubmitAlone(Now(), job);
      PushKeepsQueue(queue, places, job.id);
      repository.Create(job);
      queue := queue + [job.id];
      places := places[job.id := Queued];
    }

    /**
     The oldest queued job, run to the end without another worker in between. `result` is what the
     pipeline use case returned or raised.
     */
    method ExecuteNext(startAt: Time, result: Result, finishAt: Time)
      requires Valid() && queue != []
      modifies this, repository, metrics
      ensures Valid() && queue == old(queue)[1..]
      ensures Now() == ExecuteAlone(old(Now()), old(queue)[0], startAt, result, finishAt)
    {
      var jobId := queue[0];
      ExecuteAloneKeepsInv(Now(), jobId, startAt, result, finishAt);
      ExecuteAloneRewritesRow(Now(), jobId, startAt, result, finishAt);
      PopKeepsQueue(queue, places, Reported(result.Succeeded?));
      queue := queue[1..];
      ExecutePipelineJob(repository, metrics, jobId, startAt, result, finishAt);
      places := places[jobId := Reported(result.Succeeded?)];
    }
  }

  method ExecutePipelineJob(repository: JobRepository, metrics: MetricsRegistry, jobId: string,
                            startAt: Time, result: Result, finishAt: Time)
    requires jobId in repository.rows ==> repository.rows[jobId].id == jobId
    modifies repository, metrics
    ensures jobId !in old(repository.rows) ==> unchanged(repository) && unchanged(metrics)
    ensures jobId in old(repository.rows) ==>
      repository.rows == old(repository.rows)[jobId :=
        MarkFinished(MarkRunning(old(repository.rows)[jobId], startAt), result, finishAt)]
    ensures jobId in old(repository.rows) ==>
      var before, after := old(repository.rows)[jobId], repository.rows[jobId];
      && after.startedAt == Some(startAt) && after.finishedAt == Some(finishAt) && SameOrigin(before, after)
      && match result
         case Succeeded(collected, classified, crmTasks, outputPath) =>
           && after.status == Completed && after.errorMessage == before.errorMessage
           && after.collectedCount == Some(collected) && after.classifiedCount == Some(classified)
           && after.crmTasksCount == Some(crmTasks) && after.outputPath == outputPath
         case Raised(message) =>
           && after.status == Failed && after.errorMessage == Some(message)
           && after.collectedCount == before.collectedCount && after.classifiedCount == before.classifiedCount
           && after.crmTasksCount == before.crmTasksCount && after.outputPath == before.outputPath
    ensures jobId in old(repository.rows) ==>
      && metrics.jobsCompleted == old(metrics.jobsCompleted) + (if result.Succeeded? then 1 else 0)
      && metrics.jobsFailed == old(metrics.jobsFailed) + (if result.Succeeded? then 0 else 1)
      && metrics.jobsSubmitted == old(metrics.jobsSubmitted)
  {
    var found := repository.Get(jobId);
    if found.None? {
      return;
    }
    var job := found.value;
    var success := false;
    job := job.(status := Running);
    job := job.(startedAt := Some(startAt));
    repository.Update(job);
    match result {
      case Succeeded(collected, classified, crmTasks, outputPath) =>
        job := job.(status := Completed);
        job := job.(collectedCount := Some(collected));
        job := job.(classifiedCount := Some(classified));
        job := job.(crmTasksCount := Some(crmTasks));
        job := job.(outputPath := outputPath);
        success := true;
      case Raised(message) =>
        job := job.(status := Failed);
        job := job.(errorMessage := Some(message));
    }
    job := job.(finishedAt := Some(finishAt));
    repository.Update(job);
    if success {
      metrics.IncCompleted();
    } else {
      metrics.IncFailed();
    }
  }
}
