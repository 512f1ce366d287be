/**
 Submitting a job under a client's idempotency key, one request at a time: a live reservation of the
 key answers with the job it names; otherwise the request reserves the key and starts its own job.
 */
module SubmitJob {
  import opened Wrappers
  import opened JobModel
  import opened JobIdempotencyStore

  /** The clock readings of one request, in the order it makes them. */
  datatype Clock = Clock(get: real, purge: real, stamp: real, getAgain: real)

  predicate Ticks(clock: Clock) {
    clock.get <= clock.purge <= clock.stamp <= clock.getAgain
  }

  /** An empty key stands for a request without the header. */
  datatype Request = Request(job: PipelineJob, key: string, clock: Clock)

  datatype Reply = Reply(job: PipelineJob, isReplay: bool)

  datatype State = State(entries: Entries, rows: Rows, queue: seq<string>)

  /** `_resolve_idempotent`: the reserved job, if the repository has it. */
  function Resolve(entries: Entries, rows: Rows, key: string, now: real): (r: (Entries, Option<PipelineJob>)) {
    var (after, id) := GetStep(entries, key, now);
    (after, if id.Some? && id.value in rows then Some(rows[id.value]) else None)
  }

  function SubmitTo(s: State, job: PipelineJob): (r: (State, Reply)) {
    (s.(rows := s.rows[job.id := job], queue := s.queue + [job.id]), Reply(job, false))
  }

  function Execute(ttl: real, s: State, q: Request): (r: (State, Reply)) {
    if q.key == "" then SubmitTo(s, q.job)
    else
      var (looked, replay) := Resolve(s.entries, s.rows, q.key, q.clock.get);
      if replay.Some? then (s.(entries := looked), Reply(replay.value, true))
      else
        var (reserved, ok) := ReserveStep(ttl, looked, q.key, q.job.id, q.clock.purge, q.clock.stamp);
        if ok then SubmitTo(s.(entries := reserved), q.job)
        else
          var (again, replay') := Resolve(reserved, s.rows, q.key, q.clock.getAgain);
          if replay'.Some? then (s.(entries := again), Reply(replay'.value, true))
          else SubmitTo(s.(entries := again), q.job)
  }

  lemma ReserveOnlyDeletes(ttl: real, entries: Entries, key: string, jobId: string, purgeAt: real, stamp: real)
    ensures var (after, ok) := ReserveStep(ttl, entries, key, jobId, purgeAt, stamp);
            forall k :: k in after && (!ok || k != key) ==> k in entries && after[k] == entries[k]
  {
  }

  /**
   A replay answers with the row that the key's entry names, as it stands, and changes neither rows nor queue;
   without a key there is none. Any other answer is the request's own job, with its row made and its id queued.
   */
  lemma ExecuteMeans(ttl: real, s: State, q: Request)
    ensures var (t, reply) := Execute(ttl, s, q);
            && (reply.isReplay ==>
                  && q.key != "" && q.key in s.entries && s.entries[q.key].jobId in s.rows
                  && reply.job == s.rows[s.entries[q.key].jobId]
                  && t.rows == s.rows && t.queue == s.queue)
            && (!reply.isReplay ==>
                  reply.job == q.job && t.rows == s.rows[q.job.id := q.job] && t.queue == s.queue + [q.job.id])
            && (q.key == "" ==> !reply.isReplay && t.entries == s.entries)
  {
    if q.key != "" {
      var looked := GetStep(s.entries, q.key, q.clock.get).0;
      ReserveOnlyDeletes(ttl, looked, q.key, q.job.id, q.clock.purge, q.clock.stamp);
    }
  }

  // ---------- Runs ----------

  /** `reservations` is history: the last reservation of each key, never deleted. */
  datatype Run = Run(state: State, replies: seq<Reply>, reservations: Entries)

  /** The reservation a request makes when it is not answered with an earlier job. */
  function ReservationOf(ttl: real, q: Request): (entry: Entry) {
    Entry(q.job.id, q.clock.stamp + ttl)
  }

  function ReservationsWith(ttl: real, before: Entries, q: Request, isReplay: bool): (after: Entries) {
    if q.key != "" && !isReplay then before[q.key := ReservationOf(ttl, q)] else before
  }

  function RunAll(ttl: real, requests: seq<Request>): (run: Run)
    ensures |run.replies| == |requests|
  {
    if requests == [] then Run(State(map[], map[], []), [], map[])
    else
      var before, q := RunAll(ttl, requests[..|requests| - 1]), requests[|requests| - 1];
      var (state, reply) := Execute(ttl, before.state, q);
      Run(state, before.replies + [reply], ReservationsWith(ttl, before.reservations, q, reply.isReplay))
  }

  /** Each request is over before the next reads the clock, and every job is new with an id of its own. */
  ghost predicate OneAtATime(requests: seq<Request>) {
    && (forall i :: 0 <= i < |requests| ==> Ticks(requests[i].clock) && IsNew(requests[i].job))
    && (forall i, j :: 0 <= i < j < |requests| ==>
          requests[i].clock.getAgain <= requests[j].clock.get && requests[i].job.id != requests[j].job.id)
  }

  /** From `now` on, the store shows the live ones among the last reservations, and each of them has its row. */
  ghost predicate Faithful(run: Run, now: real) {
    && SameFrom(run.state.entries, run.reservations, now)
    && (forall key :: key in run.reservations ==>
          run.reservations[key].jobId in run.state.rows
          && run.state.rows[run.reservations[key].jobId].id == run.reservations[key].jobId)
  }

  /** The key's last reservation is still good at `now`. */
  predicate Reserved(reservations: Entries, key: string, now: real) {
    key in reservations && !Expired(reservations[key], now)
  }

  lemma ViewOfUpdate(entries: Entries, key: string, entry: Entry, now: real)
    ensures View(entries[key := entry], now)
         == if Expired(entry, now) then View(entries, now) - {key} else View(entries, now)[key := entry.jobId]
  {
  }

  /** Reserving in two tables that look the same leaves them looking the same. */
  lemma SameAfterReserving(a: Entries, b: Entries, key: string, entry: Entry, now: real)
    requires SameFrom(a, b, now)
    ensures SameFrom(a[key := entry], b[key := entry], now)
  {
    var a', b' := a[key := entry], b[key := entry];
    forall later | now <= later
      ensures View(a', later) == View(b', later)
    {
      assert View(a, later) == View(b, later);
      ViewOfUpdate(a, key, entry, later);
      ViewOfUpdate(b, key, entry, later);
    }
  }

  lemma SameFromTransitive(a: Entries, b: Entries, c: Entries, now: real, earlier: real)
    requires SameFrom(a, b, now) && SameFrom(b, c, earlier) && earlier <= now
    ensures SameFrom(a, c, now)
  {
  }

  lemma FirstLookUp(run: Run, key: string, now: real)
    requires Faithful(run, now)
    ensures GetStep(run.state.entries, key, now).1
         == if Reserved(run.reservations, key, now) then Some(run.reservations[key].jobId) else None
    ensures SameFrom(GetStep(run.state.entries, key, now).0, run.reservations, now)
  {
    var looked := GetStep(run.state.entries, key, now).0;
    GetReadsView(run.state.entries, key, now);
    assert View(run.state.entries, now) == View(run.reservations, now);
    SameFromTransitive(looked, run.state.entries, run.reservations, now, now);
  }

  /** While the key is reserved, a request replays the reserved job and creates nothing. */
  lemma ExecuteReplays(ttl: real, run: Run, q: Request)
    requires q.key != "" && Faithful(run, q.clock.get) && Reserved(run.reservations, q.key, q.clock.get)
    ensures var (state, reply) := Execute(ttl, run.state, q);
            && reply == Reply(run.state.rows[run.reservations[q.key].jobId], true)
            && state == run.state.(entries := state.entries)
            && SameFrom(state.entries, run.reservations, q.clock.get)
  {
    FirstLookUp(run, q.key, q.clock.get);
  }

  /** Otherwise it reserves the key for its own job and submits that. */
  lemma ExecuteReserves(ttl: real, run: Run, q: Request)
    requires Ticks(q.clock) && q.key != "" && Faithful(run, q.clock.get)
    requires !Reserved(run.reservations, q.key, q.clock.get)
    ensures var (state, reply) := Execute(ttl, run.state, q);
            && reply == Reply(q.job, false)
            && state.rows == run.state.rows[q.job.id := q.job] && state.queue == run.state.queue + [q.job.id]
            && SameFrom(state.entries, run.reservations[q.key := Entry(q.job.id, q.clock.stamp + ttl)], q.clock.purge)
  {
    FirstLookUp(run, q.key, q.clock.get);
    ReserveInSameTable(ttl, GetStep(run.state.entries, q.key, q.clock.get).0, run.reservations, q);
  }

  lemma ReserveInSameTable(ttl: real, looked: Entries, reservations: Entries, q: Request)
    requires Ticks(q.clock) && SameFrom(looked, reservations, q.clock.get)
    requires !Reserved(reservations, q.key, q.clock.get)
    ensures var (reserved, ok) := ReserveStep(ttl, looked, q.key, q.job.id, q.clock.purge, q.clock.stamp);
            ok && SameFrom(reserved, reservations[q.key := Entry(q.job.id, q.clock.stamp + ttl)], q.clock.purge)
  {
    var entry := Entry(q.job.id, q.clock.stamp + ttl);
    ReserveAddsToView(ttl, looked, q.key, q.job.id, q.clock.purge, q.clock.stamp);
    assert View(looked, q.clock.purge) == View(reservations, q.clock.purge);
    SameAfterReserving(looked, reservations, q.key, entry, q.clock.get);
    var reserved := ReserveStep(ttl, looked, q.key, q.job.id, q.clock.purge, q.clock.stamp).0;
    SameFromTransitive(reserved, looked[q.key := entry], reservations[q.key := entry], q.clock.purge, q.clock.get);
  }

  lemma StepKeepsFaithful(ttl: real, run: Run, q: Request, now: real)
    requires Ticks(q.clock) && q.clock.getAgain <= now && Faithful(run, q.clock.get)
    ensures var (state, reply) := Execute(ttl, run.state, q);
            Faithful(Run(state, run.replies + [reply], ReservationsWith(ttl, run.reservations, q, reply.isReplay)), now)
  {
    if q.key != "" {
      if Reserved(run.reservations, q.key, q.clock.get) {
        ExecuteReplays(ttl, run, q);
      } else {
        ExecuteReserves(ttl, run, q);
      }
    }
  }

  ghost predicate EndedBy(requests: seq<Request>, now: real) {
    forall i :: 0 <= i < |requests| ==> requests[i].clock.getAgain <= now
  }

  lemma {:induction false} RunIsFaithful(ttl: real, requests: seq<Request>, now: real)
    requires OneAtATime(requests) && EndedBy(requests, now)
    ensures Faithful(RunAll(ttl, requests), now)
  {
    if requests == [] {
    } else {
      var front, q := requests[..|requests| - 1], requests[|requests| - 1];
      RunIsFaithful(ttl, front, q.clock.get);
      StepKeepsFaithful(ttl, RunAll(ttl, front), q, now);
    }
  }

  lemma {:induction false} RunPrefix(ttl: real, requests: seq<Request>, n: nat)
    requires n <= |requests|
    ensures RunAll(ttl, requests).replies[..n] == RunAll(ttl, requests[..n]).replies
  {
    if n == |requests| {
      assert requests[..n] == requests;
    } else {
      RunPrefix(ttl, requests[..|requests| - 1], n);
      assert requests[..|requests| - 1][..n] == requests[..n];
    }
  }

  /** How the j-th request is answered, told by the reservations before it. */
  lemma ReplyOf(ttl: real, requests: seq<Request>, j: nat)
    requires OneAtATime(requests) && j < |requests| && requests[j].key != ""
    ensures var reservations, q := RunAll(ttl, requests[..j]).reservations, requests[j];
            var reply := RunAll(ttl, requests).replies[j];
            var rows := RunAll(ttl, requests[..j]).state.rows;
            if Reserved(reservations, q.key, q.clock.get)
            then reservations[q.key].jobId in rows && reply == Reply(rows[reservations[q.key].jobId], true)
            else reply == Reply(q.job, false)
  {
    var q, run := requests[j], RunAll(ttl, requests[..j]);
    RunIsFaithful(ttl, requests[..j], q.clock.get);
    RunPrefix(ttl, requests, j + 1);
    assert requests[..j + 1][..j] == requests[..j];
    assert RunAll(ttl, requests).replies[j] == RunAll(ttl, requests[..j + 1]).replies[j]
        == Execute(ttl, run.state, q).1;
    if Reserved(run.reservations, q.key, q.clock.get) {
      ExecuteReplays(ttl, run, q);
    } else {
      ExecuteReserves(ttl, run, q);
    }
  }

  /** The reservation is still the key's last, or some request has come after it expired. */
  ghost predicate HoldsOrExpired(ttl: real, reservations: Entries, q: Request, now: real) {
    || (q.key in reservations && reservations[q.key] == ReservationOf(ttl, q))
    || Expired(ReservationOf(ttl, q), now)
  }

  lemma RunSnoc(ttl: real, requests: seq<Request>, q: Request)
    ensures var before, after := RunAll(ttl, requests), RunAll(ttl, requests + [q]);
            && after.state == Execute(ttl, before.state, q).0
            && after.replies == before.replies + [Execute(ttl, before.state, q).1]
            && after.reservations == ReservationsWith(ttl, before.reservations, q,
                   Execute(ttl, before.state, q).1.isReplay)
  {
  }

  lemma ReservationsAfter(ttl: real, requests: seq<Request>, n: nat)
    requires n < |requests|
    ensures RunAll(ttl, requests[..n + 1]).reservations
         == ReservationsWith(ttl, RunAll(ttl, requests[..n]).reservations, requests[n],
             RunAll(ttl, requests).replies[n].isReplay)
  {
    assert requests[..n + 1] == requests[..n] + [requests[n]];
    RunSnoc(ttl, requests[..n], requests[n]);
    RunPrefix(ttl, requests, n + 1);
    assert RunAll(ttl, requests[..n + 1]).replies[n] == RunAll(ttl, requests).replies[n];
  }

  /** One request between: either it leaves the key's reservation alone, or it finds it expired. */
  lemma ReservationStep(ttl: real, before: Entries, q0: Request, q: Request, reply: Reply, earlier: real)
    requires HoldsOrExpired(ttl, before, q0, earlier) && earlier <= q.clock.get && q0.key != ""
    requires q.key == q0.key && Reserved(before, q.key, q.clock.get) ==> reply.isReplay
    ensures HoldsOrExpired(ttl, ReservationsWith(ttl, before, q, reply.isReplay), q0, q.clock.get)
  {
  }

  lemma LaterGets(requests: seq<Request>, n: nat)
    requires OneAtATime(requests) && n + 1 < |requests|
    ensures requests[n].clock.get <= requests[n + 1].clock.get
  {
    assert Ticks(requests[n].clock);
  }

  /** After `n` requests the reservation of the i-th still holds, or has expired. */
  ghost predicate Lasts(ttl: real, requests: seq<Request>, i: nat, n: nat)
    requires i < n <= |requests|
  {
    HoldsOrExpired(ttl, RunAll(ttl, requests[..n]).reservations, requests[i], requests[n - 1].clock.get)
  }

  ghost predicate Starts(ttl: real, requests: seq<Request>, i: nat)
    requires i < |requests|
  {
    requests[i].key != "" && !RunAll(ttl, requests).replies[i].isReplay
  }

  lemma ReservationMade(ttl: real, requests: seq<Request>, i: nat)
    requires i < |requests| && Starts(ttl, requests, i)
    ensures Lasts(ttl, requests, i, i + 1)
  {
    ReservationsAfter(ttl, requests, i);
  }

  lemma ReservationNext(ttl: real, requests: seq<Request>, i: nat, n: nat)
    requires OneAtATime(requests) && i < n < |requests| && requests[i].key != "" && Lasts(ttl, requests, i, n)
    ensures Lasts(ttl, requests, i, n + 1)
  {
    var before, reply := RunAll(ttl, requests[..n]).reservations, RunAll(ttl, requests).replies[n];
    ReservationsAfter(ttl, requests, n);
    LaterGets(requests, n - 1);
    if requests[n].key == requests[i].key {
      ReplyOf(ttl, requests, n);
    }
    ReservationStep(ttl, before, requests[i], requests[n], reply, requests[n - 1].clock.get);
  }

  /** A reservation stays the key's last until a request comes after it has expired. */
  lemma {:induction false} ReservationLasts(ttl: real, requests: seq<Request>, i: nat, n: nat)
    requires OneAtATime(requests) && i < n <= |requests| && Starts(ttl, requests, i)
    ensures Lasts(ttl, requests, i, n)
    decreases n
  {
    if n == i + 1 {
      ReservationMade(ttl, requests, i);
    } else {
      ReservationLasts(ttl, requests, i, n - 1);
      ReservationNext(ttl, requests, i, n - 1);
    }
  }

  lemma RequestStarts(ttl: real, requests: seq<Request>, q: Request)
    ensures var before, after := RunAll(ttl, requests), RunAll(ttl, requests + [q]);
            && (after.replies[|requests|].isReplay ==>
                  after.state.rows == before.state.rows && after.state.queue == before.state.queue)
            && (!after.replies[|requests|].isReplay ==>
                  && after.state.rows == before.state.rows[q.job.id := q.job]
                  && after.state.queue == before.state.queue + [q.job.id])
  {
    RunSnoc(ttl, requests, q);
    ExecuteMeans(ttl, RunAll(ttl, requests).state, q);
  }

  /** The row of a job started stays as it was submitted. */
  lemma {:induction false} RowStays(ttl: real, requests: seq<Request>, i: nat, n: nat)
    requires OneAtATime(requests) && i < n <= |requests| && !RunAll(ttl, requests).replies[i].isReplay
    ensures requests[i].job.id in RunAll(ttl, requests[..n]).state.rows
    ensures RunAll(ttl, requests[..n]).state.rows[requests[i].job.id] == requests[i].job
    decreases n
  {
    assert requests[..n] == requests[..n - 1] + [requests[n - 1]];
    RequestStarts(ttl, requests[..n - 1], requests[n - 1]);
    if i + 1 == n {
      RunPrefix(ttl, requests, n);
      assert RunAll(ttl, requests[..n]).replies[i] == RunAll(ttl, requests).replies[i];
    } else {
      RowStays(ttl, requests, i, n - 1);
    }
  }

  /**
   A key answers with its first job for as long as that job's reservation lasts, and two jobs started
   under one key are more than the time to live apart.
   */
  lemma KeyReplaysUntilExpiry(ttl: real, requests: seq<Request>, i: nat, j: nat)
    requires OneAtATime(requests) && i < j < |requests|
    requires requests[i].key != "" && requests[j].key == requests[i].key
    requires !RunAll(ttl, requests).replies[i].isReplay
    ensures requests[j].clock.get <= requests[i].clock.stamp + ttl ==>
      RunAll(ttl, requests).replies[j] == Reply(requests[i].job, true)
    ensures !RunAll(ttl, requests).replies[j].isReplay ==>
      requests[j].clock.stamp > requests[i].clock.stamp + ttl
  {
    ReservationLasts(ttl, requests, i, j);
    ReplyOf(ttl, requests, j);
    RowStays(ttl, requests, i, j);
    assert Ticks(requests[j - 1].clock) && Ticks(requests[j].clock);
  }

  /** Every replay goes back to an earlier request of the same key whose reservation was still good. */
  lemma ReplayHasOrigin(ttl: real, requests: seq<Request>, j: nat) returns (i: nat)
    requires OneAtATime(requests) && j < |requests| && requests[j].key != ""
    requires RunAll(ttl, requests).replies[j].isReplay
    ensures i < j && requests[i].key == requests[j].key && !RunAll(ttl, requests).replies[i].isReplay
    ensures requests[j].clock.get <= requests[i].clock.stamp + ttl
    ensures RunAll(ttl, requests).replies[j].job == requests[i].job
  {
    ReplyOf(ttl, requests, j);
    i := ReservationHasOrigin(ttl, requests, j, requests[j].key);
    RowStays(ttl, requests, i, j);
  }

  lemma {:induction false} ReservationHasOrigin(ttl: real, requests: seq<Request>, n: nat, key: string) returns (i: nat)
    requires n <= |requests| && key in RunAll(ttl, requests[..n]).reservations
    ensures i < n && requests[i].key == key && !RunAll(ttl, requests).replies[i].isReplay
    ensures RunAll(ttl, requests[..n]).reservations[key] == ReservationOf(ttl, requests[i])
    decreases n
  {
    assert n > 0;
    ReservationsAfter(ttl, requests, n - 1);
    if requests[n - 1].key == key && key != "" && !RunAll(ttl, requests).replies[n - 1].isReplay {
      i := n - 1;
    } else {
      i := ReservationHasOrigin(ttl, requests, n - 1, key);
    }
  }

  /** The jobs started, in order: those of the requests not answered with an earlier job. */
  function StartedIds(requests: seq<Request>, replies: seq<Reply>): (ids: seq<string>)
    requires |requests| == |replies|
  {
    if requests == [] then []
    else
      var n := |requests| - 1;
      StartedIds(requests[..n], replies[..n]) + if replies[n].isReplay then [] else [requests[n].job.id]
  }

  function IdsOf(requests: seq<Request>): (ids: set<string>) {
    if requests == [] then {} else IdsOf(requests[..|requests| - 1]) + {requests[|requests| - 1].job.id}
  }

  lemma {:induction false} IdIsNotAmong(requests: seq<Request>, n: nat, k: nat)
    requires OneAtATime(requests) && k <= n < |requests|
    ensures requests[n].job.id !in IdsOf(requests[..k])
    decreases k
  {
    if k == 0 {
    } else {
      IdIsNotAmong(requests, n, k - 1);
      assert requests[..k][..k - 1] == requests[..k - 1];
    }
  }

  /** The rows created and the ids queued are the jobs started, each once. */
  ghost predicate JobsStarted(requests: seq<Request>, run: Run)
    requires |requests| == |run.replies|
  {
    && run.state.queue == StartedIds(requests, run.replies)
    && run.state.rows.Keys == (set id | id in run.state.queue)
    && |run.state.rows| == |run.state.queue|
    && run.state.rows.Keys <= IdsOf(requests)
  }

  lemma StartKeepsJobsStarted(rows: Rows, queue: seq<string>, job: PipelineJob)
    requires job.id !in rows && rows.Keys == (set id | id in queue) && |rows| == |queue|
    ensures var rows', queue' := rows[job.id := job], queue + [job.id];
            rows'.Keys == (set id | id in queue') && |rows'| == |queue'|
  {
  }

  lemma RequestKeepsJobsStarted(ttl: real, requests: seq<Request>, q: Request)
    requires OneAtATime(requests + [q]) && JobsStarted(requests, RunAll(ttl, requests))
    requires q.job.id !in IdsOf(requests)
    ensures JobsStarted(requests + [q], RunAll(ttl, requests + [q]))
  {
    var before, after := RunAll(ttl, requests), RunAll(ttl, requests + [q]);
    RequestStarts(ttl, requests, q);
    assert (requests + [q])[..|requests|] == requests && after.replies[..|requests|] == before.replies by {
      RunPrefix(ttl, requests + [q], |requests|);
    }
    StartKeepsJobsStarted(before.state.rows, before.state.queue, q.job);
  }

  lemma NewJobInOrder(requests: seq<Request>, q: Request)
    requires OneAtATime(requests + [q])
    ensures OneAtATime(requests) && q.job.id !in IdsOf(requests)
  {
    var longer := requests + [q];
    assert forall i :: 0 <= i < |requests| ==> longer[i] == requests[i];
    IdIsNotAmong(longer, |requests|, |requests|);
    assert longer[..|requests|] == requests && longer[|requests|] == q;
  }

  /** The rows created, the ids queued and the answers that are not replays are the same jobs, each once. */
  lemma {:induction false} RowsAreTheJobsStarted(ttl: real, requests: seq<Request>)
    requires OneAtATime(requests)
    ensures JobsStarted(requests, RunAll(ttl, requests))
  {
    if requests == [] {
    } else {
      var front, q := requests[..|requests| - 1], requests[|requests| - 1];
      assert requests == front + [q];
      NewJobInOrder(front, q);
      RowsAreTheJobsStarted(ttl, front);
      RequestKeepsJobsStarted(ttl, front, q);
    }
  }

  /** How many answers start a job. */
  function NotReplays(replies: seq<Reply>): (n: nat) {
    if replies == [] then 0
    else NotReplays(replies[..|replies| - 1]) + if replies[|replies| - 1].isReplay then 0 else 1
  }

  lemma {:induction false} StartedCount(requests: seq<Request>, replies: seq<Reply>)
    requires |requests| == |replies|
    ensures |StartedIds(requests, replies)| == NotReplays(replies)
  {
    if requests == [] {
    } else {
      StartedCount(requests[..|requests| - 1], replies[..|replies| - 1]);
    }
  }

  /** The answers that are not replays are as many as the rows. */
  lemma NotReplaysAreRows(ttl: real, requests: seq<Request>)
    requires OneAtATime(requests)
    ensures NotReplays(RunAll(ttl, requests).replies) == |RunAll(ttl, requests).state.rows|
  {
    RowsAreTheJobsStarted(ttl, requests);
    StartedCount(requests, RunAll(ttl, requests).replies);
  }

  /** The job of one more request is new to the repository. */
  lemma NextJobIsNew(ttl: real, requests: seq<Request>, q: Request)
    requires OneAtATime(requests + [q])
    ensures OneAtATime(requests) && q.job.id !in RunAll(ttl, requests).state.rows
  {
    NewJobInOrder(requests, q);
    RowsAreTheJobsStarted(ttl, requests);
  }

  // ---------- The use case ----------

  class SubmitPipelineJobUseCase {
    const repository: JobRepository
    const store: MemoryJobIdempotencyStore
    var queue: seq<string>  // the runner's queue

    ghost function Now(): (s: State)
      reads this, repository, store
    {
      State(store.entries, repository.rows, queue)
    }

    constructor (repository: JobRepository, store: MemoryJobIdempotencyStore)
      ensures this.repository == repository && this.store == store && queue == []
    {
      this.repository, this.store, queue := repository, store, [];
    }

    method ResolveIdempotent(key: string, now: real) returns (job: Option<PipelineJob>)
      modifies store
      ensures (store.entries, job) == Resolve(old(store.entries), repository.rows, key, now)
    {
      var existingId := store.Get(key, now);
      if existingId.None? {
        return None;
      }
      job := repository.Get(existingId.value);
    }

    method Submit(job: PipelineJob)
      requires job.id !in repository.rows
      modifies this, repository
      ensures repository.rows == old(repository.rows)[job.id := job] && queue == old(queue) + [job.id]
    {
      repository.Create(job);
      queue := queue + [job.id];
    }

    method ExecuteRequest(q: Request) returns (reply: Reply)
      requires q.job.id !in repository.rows
      modifies this, repository, store
      ensures (Now(), reply) == Execute(store.ttlSeconds, old(Now()), q)
      ensures reply.isReplay ==>
        && q.key != "" && q.key in old(store.entries) && old(store.entries)[q.key].jobId in old(repository.rows)
        && reply.job == old(repository.rows)[old(store.entries)[q.key].jobId]
        && repository.rows == old(repository.rows) && queue == old(queue)
      ensures !reply.isReplay ==>
        && reply.job == q.job && queue == old(queue) + [q.job.id]
        && repository.rows == old(repository.rows)[q.job.id := q.job]
      ensures q.key == "" ==> !reply.isReplay && store.entries == old(store.entries)
    {
      ExecuteMeans(store.ttlSeconds, Now(), q);
      if q.key != "" {
        var replay := ResolveIdempotent(q.key, q.clock.get);
        if replay.Some? {
          return Reply(replay.value, true);
        }
        var ok := store.Reserve(q.key, q.job.id, q.clock.purge, q.clock.stamp);
        if !ok {
          replay := ResolveIdempotent(q.key, q.clock.getAgain);
          if replay.Some? {
            return Reply(replay.value, true);
          }
        }
      }
      Submit(q.job);
      return Reply(q.job, false);
    }
  }
}
