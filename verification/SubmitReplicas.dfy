/**
 Submission by replicas that share a reservation store with atomic reserve and an expiry (`SET NX EX`)
 and a repository. One request is five separate steps: look up, read the repository, reserve, look up
 again, read again, and then create; steps of different requests interleave freely. A process that
 dies just takes no more steps.
 */
module SubmitReplicas {
  import Runs

  type Time = real

  /** A request, and the id of the job it would create: both are fresh per request. */
  type Pid = nat

  datatype Entry = Entry(winner: Pid, at: Time)

  /**
   Why a request creates its own job. `lostAt` is when its reserve failed, on the reservation of `winner`,
   and `againAt` when its second look found none; `readAt` is the turn at which it read for the row of `winner`.
   */
  datatype Cause =
    | NoKey
    | Won
    | FoundNone(winner: Pid, lostAt: Time, againAt: Time)
    | FellInGap(winner: Pid, readAt: nat)

  /** `created` is history: whether the row read for existed when its id was looked up. */
  datatype Phase =
    | Begin
    | FirstRead(id: Pid)
    | Reserving
    | Again(winner: Pid, lostAt: Time)
    | SecondRead(id: Pid, created: bool)
    | Creating(cause: Cause)
    | Started(cause: Cause)
    | Replayed(id: Pid)

  datatype Request = Request(key: string, phase: Phase)

  /**
   `turn` counts the events. `wins` is history, when each successful reservation was made, and so are the
   turns at which the rows were created.
   */
  datatype State = State(
    clock: Time,
    entries: map<string, Entry>,
    requests: map<Pid, Request>,
    rows: map<Pid, nat>,
    wins: map<Pid, Time>,
    turn: nat)

  datatype Event = Arrive(pid: Pid, key: string) | Step(pid: Pid) | Tick(to: Time)

  function Start(): (s: State) {
    State(0.0, map[], map[], map[], map[], 0)
  }

  predicate IsLive(ttl: Time, s: State, key: string) {
    key in s.entries && s.clock <= s.entries[key].at + ttl
  }

  predicate Enabled(s: State, e: Event) {
    match e
    case Arrive(pid, _) => pid !in s.requests
    case Step(pid) => pid in s.requests && !s.requests[pid].phase.Started? && !s.requests[pid].phase.Replayed?
    case Tick(to) => s.clock <= to
  }

  function PhaseAfter(ttl: Time, s: State, pid: Pid): (phase: Phase)
    requires Enabled(s, Step(pid))
  {
    var key := s.requests[pid].key;
    match s.requests[pid].phase
    case Begin =>
      if key == "" then Creating(NoKey)
      else if IsLive(ttl, s, key) then FirstRead(s.entries[key].winner) else Reserving
    case FirstRead(id) => if id in s.rows then Replayed(id) else Reserving
    case Reserving => if IsLive(ttl, s, key) then Again(s.entries[key].winner, s.clock) else Creating(Won)
    case Again(winner, lostAt) =>
      if IsLive(ttl, s, key) then SecondRead(s.entries[key].winner, s.entries[key].winner in s.rows)
      else Creating(FoundNone(winner, lostAt, s.clock))
    case SecondRead(id, _) => if id in s.rows then Replayed(id) else Creating(FellInGap(id, s.turn))
    case Creating(cause) => Started(cause)
    case _ => s.requests[pid].phase
  }

  function Next(ttl: Time, s: State, e: Event): (t: State)
    requires Enabled(s, e)
  {
    var next := s.(turn := s.turn + 1);
    match e
    case Arrive(pid, key) => next.(requests := s.requests[pid := Request(key, Begin)])
    case Tick(to) => next.(clock := to)
    case Step(pid) =>
      var request, phase := s.requests[pid], PhaseAfter(ttl, s, pid);
      var t := next.(requests := s.requests[pid := Request(request.key, phase)]);
      if request.phase.Reserving? && phase == Creating(Won) then
        t.(entries := s.entries[request.key := Entry(pid, s.clock)], wins := s.wins[pid := s.clock])
      else if phase.Started? then t.(rows := s.rows[pid := s.turn])
      else t
  }

  function NextOf(ttl: Time): (next: (State, Event) -> State) {
    (s, e) => if Enabled(s, e) then Next(ttl, s, e) else s
  }

  predicate IsRun(ttl: Time, s: State, run: seq<Event>) {
    Runs.IsRun(Enabled, NextOf(ttl), s, run)
  }

  function After(ttl: Time, s: State, run: seq<Event>): (t: State) {
    Runs.After(NextOf(ttl), s, run)
  }

  // ---------- What every step keeps ----------

  ghost predicate IsWinnerFor(s: State, id: Pid, key: string) {
    id in s.wins && id in s.requests && s.requests[id].key == key
  }

  /** The winner's reservation was live at `at`. */
  ghost predicate WasLive(ttl: Time, s: State, winner: Pid, key: string, at: Time) {
    IsWinnerFor(s, winner, key) && s.wins[winner] <= at <= s.wins[winner] + ttl
  }

  /** The winner's row was not there when it was read for: it has been created since, or is not there yet. */
  ghost predicate ReadTooEarly(s: State, winner: Pid, key: string, readAt: nat) {
    IsWinnerFor(s, winner, key) && readAt < s.turn && (winner in s.rows ==> readAt < s.rows[winner])
  }

  ghost predicate CauseInv(ttl: Time, s: State, key: string, cause: Cause) {
    && (cause.NoKey? <==> key == "")
    && (cause.FoundNone? ==>
          WasLive(ttl, s, cause.winner, key, cause.lostAt) && s.wins[cause.winner] + ttl < cause.againAt)
    && (cause.FellInGap? ==> ReadTooEarly(s, cause.winner, key, cause.readAt))
  }

  ghost predicate PhaseInv(ttl: Time, s: State, pid: Pid, request: Request) {
    && (pid in s.wins <==> request.phase == Creating(Won) || request.phase == Started(Won))
    && (pid in s.rows <==> request.phase.Started?)
    && (request.key == "" ==> request.phase.Begin? || request.phase.Creating? || request.phase.Started?)
    && match request.phase
       case FirstRead(id) => IsWinnerFor(s, id, request.key)
       case SecondRead(id, created) => IsWinnerFor(s, id, request.key) && (created ==> id in s.rows)
       case Replayed(id) => IsWinnerFor(s, id, request.key) && id in s.rows
       case Again(winner, lostAt) => WasLive(ttl, s, winner, request.key, lostAt)
       case Creating(cause) => CauseInv(ttl, s, request.key, cause)
       case Started(cause) => CauseInv(ttl, s, request.key, cause)
       case _ => true
  }

  /** The key's entry was made by a winner of the key, at the time it won. */
  ghost predicate EntryIsWin(s: State, key: string)
    requires key in s.entries
  {
    var entry := s.entries[key];
    IsWinnerFor(s, entry.winner, key) && s.wins[entry.winner] == entry.at <= s.clock
  }

  /** The winner made its key's entry, or its reservation had expired before that was made. */
  ghost predicate WinIsPast(ttl: Time, s: State, p: Pid)
    requires p in s.wins
  {
    && p in s.requests && s.requests[p].key in s.entries
    && var entry := s.entries[s.requests[p].key];
       p == entry.winner || s.wins[p] + ttl < entry.at
  }

  /** Each key's entry is its latest reservation, and every earlier one had expired before it was made. */
  ghost predicate EntriesInv(ttl: Time, s: State) {
    && (forall key {:trigger EntryIsWin(s, key)} :: key in s.entries ==> EntryIsWin(s, key))
    && (forall p {:trigger WinIsPast(ttl, s, p)} :: p in s.wins ==> WinIsPast(ttl, s, p))
  }

  ghost predicate Apart(ttl: Time, s: State) {
    forall p, q | p in s.wins && q in s.wins && p != q && p in s.requests && q in s.requests ::
      s.requests[p].key == s.requests[q].key ==> s.wins[p] + ttl < s.wins[q] || s.wins[q] + ttl < s.wins[p]
  }

  ghost predicate WinsInv(ttl: Time, s: State) {
    EntriesInv(ttl, s) && Apart(ttl, s)
  }

  ghost predicate RowsInv(s: State) {
    forall p :: p in s.rows ==> p in s.requests && s.rows[p] < s.turn
  }

  ghost predicate Inv(ttl: Time, s: State) {
    && WinsInv(ttl, s)
    && (forall p :: p in s.requests ==> PhaseInv(ttl, s, p, s.requests[p]))
    && RowsInv(s)
  }

  /** Without a live reservation every earlier one of the key has expired. */
  lemma AllExpired(ttl: Time, s: State, key: string, p: Pid)
    requires EntriesInv(ttl, s) && IsWinnerFor(s, p, key) && !IsLive(ttl, s, key)
    ensures s.wins[p] + ttl < s.clock
  {
    assert WinIsPast(ttl, s, p);
    assert EntryIsWin(s, key);
  }

  /** A new reservation, of a request that had none, when the earlier ones of its key have expired. */
  lemma NewWinKeepsApart(ttl: Time, s: State, t: State, pid: Pid, key: string)
    requires Apart(ttl, s)
    requires pid !in s.wins && pid in s.requests && s.requests[pid].key == key
    requires forall p :: IsWinnerFor(s, p, key) ==> s.wins[p] + ttl < s.clock
    requires Grows(s, t) && t.requests.Keys == s.requests.Keys && t.wins == s.wins[pid := s.clock]
    ensures Apart(ttl, t)
  {
    forall p | p in s.wins && p in s.requests && t.requests[p].key == key
      ensures t.wins[p] + ttl < s.clock
    {
      assert IsWinnerFor(s, p, key);
    }
  }

  lemma NewWinKeepsEntries(ttl: Time, s: State, t: State, pid: Pid, key: string)
    requires EntriesInv(ttl, s) && t.clock == s.clock && t.entries == s.entries[key := Entry(pid, s.clock)]
    requires pid !in s.wins && pid in s.requests && s.requests[pid].key == key
    requires forall p :: IsWinnerFor(s, p, key) ==> s.wins[p] + ttl < s.clock
    requires Grows(s, t) && t.requests.Keys == s.requests.Keys && t.wins == s.wins[pid := s.clock]
    ensures EntriesInv(ttl, t)
  {
    forall k | k in t.entries
      ensures EntryIsWin(t, k)
    {
      assert k != key ==> EntryIsWin(s, k);
    }
    forall p | p in t.wins
      ensures WinIsPast(ttl, t, p)
    {
      if p != pid {
        assert WinIsPast(ttl, s, p);
        assert s.requests[p].key == key ==> IsWinnerFor(s, p, key);
      }
    }
  }

  lemma WinKeepsWinsInv(ttl: Time, s: State, pid: Pid)
    requires Inv(ttl, s) && Enabled(s, Step(pid)) && s.requests[pid].phase.Reserving?
    requires !IsLive(ttl, s, s.requests[pid].key)
    ensures WinsInv(ttl, Next(ttl, s, Step(pid)))
  {
    var key := s.requests[pid].key;
    assert PhaseInv(ttl, s, pid, s.requests[pid]);
    forall p | IsWinnerFor(s, p, key)
      ensures s.wins[p] + ttl < s.clock
    {
      AllExpired(ttl, s, key, p);
    }
    NextGrows(ttl, s, Step(pid));
    NewWinKeepsApart(ttl, s, Next(ttl, s, Step(pid)), pid, key);
    NewWinKeepsEntries(ttl, s, Next(ttl, s, Step(pid)), pid, key);
  }

  /** Wins and rows are only added, and no request changes its key. */
  ghost predicate Grows(s: State, t: State) {
    && (forall p :: p in s.requests ==> p in t.requests && t.requests[p].key == s.requests[p].key)
    && (forall p :: p in s.wins ==> p in t.wins)
    && s.rows.Keys <= t.rows.Keys
  }

  /** What the history says of earlier turns does not change. */
  ghost predicate KeepsHistory(s: State, t: State) {
    && (forall p :: p in s.wins ==> p in t.wins && t.wins[p] == s.wins[p])
    && (forall p :: p in s.rows ==> p in t.rows && t.rows[p] == s.rows[p])
    && (forall p :: p in t.rows && p !in s.rows ==> s.turn <= t.rows[p])
    && s.turn <= t.turn
  }

  lemma GrowthKeepsPhase(ttl: Time, s: State, t: State, pid: Pid, request: Request)
    requires Grows(s, t) && KeepsHistory(s, t) && PhaseInv(ttl, s, pid, request)
    requires (pid in t.wins <==> pid in s.wins) && (pid in t.rows <==> pid in s.rows)
    ensures PhaseInv(ttl, t, pid, request)
  {
  }

  /** A request wins at most once, and creates at most one row. */
  lemma NextKeepsHistory(ttl: Time, s: State, e: Event)
    requires Inv(ttl, s) && Enabled(s, e)
    ensures KeepsHistory(s, Next(ttl, s, e))
  {
    if e.Step? {
      assert PhaseInv(ttl, s, e.pid, s.requests[e.pid]);
    }
  }

  lemma NextGrows(ttl: Time, s: State, e: Event)
    requires Enabled(s, e)
    ensures Grows(s, Next(ttl, s, e))
  {
  }

  lemma BeginKeepsPhase(ttl: Time, s: State, pid: Pid)
    requires Inv(ttl, s) && Enabled(s, Step(pid)) && s.requests[pid].phase.Begin?
    ensures var t := Next(ttl, s, Step(pid));
            PhaseInv(ttl, t, pid, t.requests[pid])
  {
    assert s.requests[pid].key in s.entries ==> EntryIsWin(s, s.requests[pid].key);
    assert PhaseInv(ttl, s, pid, s.requests[pid]);
  }

  lemma AgainKeepsPhase(ttl: Time, s: State, pid: Pid)
    requires Inv(ttl, s) && Enabled(s, Step(pid)) && s.requests[pid].phase.Again?
    ensures var t := Next(ttl, s, Step(pid));
            PhaseInv(ttl, t, pid, t.requests[pid])
  {
    assert s.requests[pid].key in s.entries ==> EntryIsWin(s, s.requests[pid].key);
    var request := s.requests[pid];
    assert PhaseInv(ttl, s, pid, request);
    if !IsLive(ttl, s, request.key) {
      AllExpired(ttl, s, request.key, request.phase.winner);
    }
  }

  lemma ReadKeepsPhase(ttl: Time, s: State, pid: Pid)
    requires Inv(ttl, s) && Enabled(s, Step(pid))
    requires (s.requests[pid].phase.FirstRead? || s.requests[pid].phase.SecondRead?)
    ensures var t := Next(ttl, s, Step(pid));
            PhaseInv(ttl, t, pid, t.requests[pid])
  {
    assert PhaseInv(ttl, s, pid, s.requests[pid]);
  }

  lemma ReserveKeepsPhase(ttl: Time, s: State, pid: Pid)
    requires Inv(ttl, s) && Enabled(s, Step(pid)) && s.requests[pid].phase.Reserving?
    ensures var t := Next(ttl, s, Step(pid));
            PhaseInv(ttl, t, pid, t.requests[pid])
  {
    assert s.requests[pid].key in s.entries ==> EntryIsWin(s, s.requests[pid].key);
    assert PhaseInv(ttl, s, pid, s.requests[pid]);
  }

  lemma CreateKeepsPhase(ttl: Time, s: State, pid: Pid)
    requires Inv(ttl, s) && Enabled(s, Step(pid)) && s.requests[pid].phase.Creating?
    ensures var t := Next(ttl, s, Step(pid));
            PhaseInv(ttl, t, pid, t.requests[pid])
  {
    assert PhaseInv(ttl, s, pid, s.requests[pid]);
  }

  lemma StepKeepsOwnPhase(ttl: Time, s: State, pid: Pid)
    requires Inv(ttl, s) && Enabled(s, Step(pid))
    ensures var t := Next(ttl, s, Step(pid));
            PhaseInv(ttl, t, pid, t.requests[pid])
  {
    var phase := s.requests[pid].phase;
    if phase.Begin? {
      BeginKeepsPhase(ttl, s, pid);
    } else if phase.Again? {
      AgainKeepsPhase(ttl, s, pid);
    } else if phase.FirstRead? || phase.SecondRead? {
      ReadKeepsPhase(ttl, s, pid);
    } else if phase.Reserving? {
      ReserveKeepsPhase(ttl, s, pid);
    } else {
      CreateKeepsPhase(ttl, s, pid);
    }
  }

  lemma NextKeepsPhases(ttl: Time, s: State, e: Event)
    requires Inv(ttl, s) && Enabled(s, e)
    ensures var t := Next(ttl, s, e);
            forall p :: p in t.requests ==> PhaseInv(ttl, t, p, t.requests[p])
  {
    var t := Next(ttl, s, e);
    NextGrows(ttl, s, e);
    NextKeepsHistory(ttl, s, e);
    if e.Step? {
      StepKeepsOwnPhase(ttl, s, e.pid);
    }
    forall p | p in t.requests && !(e.Step? && p == e.pid)
      ensures PhaseInv(ttl, t, p, t.requests[p])
    {
      assert p in s.wins ==> WinIsPast(ttl, s, p);
      if p in s.requests {
        GrowthKeepsPhase(ttl, s, t, p, s.requests[p]);
      }
    }
  }

  lemma QuietStepKeepsWinsInv(ttl: Time, s: State, t: State)
    requires WinsInv(ttl, s) && Grows(s, t)
    requires t.entries == s.entries && t.wins == s.wins && s.clock <= t.clock
    ensures WinsInv(ttl, t)
  {
    forall key | key in t.entries
      ensures EntryIsWin(t, key)
    {
      assert EntryIsWin(s, key);
    }
    forall p | p in t.wins
      ensures p in s.requests && WinIsPast(ttl, t, p)
    {
      assert WinIsPast(ttl, s, p);
    }
  }

  predicate Wins(ttl: Time, s: State, e: Event) {
    e.Step? && e.pid in s.requests && s.requests[e.pid].phase.Reserving? && !IsLive(ttl, s, s.requests[e.pid].key)
  }

  lemma OnlyWinsReserve(ttl: Time, s: State, e: Event)
    requires Enabled(s, e) && !Wins(ttl, s, e)
    ensures Next(ttl, s, e).entries == s.entries && Next(ttl, s, e).wins == s.wins && s.clock <= Next(ttl, s, e).clock
  {
  }

  lemma NextKeepsWinsInv(ttl: Time, s: State, e: Event)
    requires Inv(ttl, s) && Enabled(s, e)
    ensures WinsInv(ttl, Next(ttl, s, e))
  {
    if Wins(ttl, s, e) {
      WinKeepsWinsInv(ttl, s, e.pid);
    } else {
      NextGrows(ttl, s, e);
      OnlyWinsReserve(ttl, s, e);
      QuietStepKeepsWinsInv(ttl, s, Next(ttl, s, e));
    }
  }

  lemma NextKeepsRows(ttl: Time, s: State, e: Event)
    requires Enabled(s, e) && RowsInv(s)
    ensures RowsInv(Next(ttl, s, e))
  {
  }

  lemma NextKeepsInv(ttl: Time, s: State, e: Event)
    requires Inv(ttl, s) && Enabled(s, e)
    ensures Inv(ttl, Next(ttl, s, e))
  {
    NextKeepsPhases(ttl, s, e);
    NextKeepsWinsInv(ttl, s, e);
    NextKeepsRows(ttl, s, e);
  }

  lemma {:induction false} RunKeepsInv(ttl: Time, s: State, run: seq<Event>)
    requires Inv(ttl, s) && IsRun(ttl, s, run)
    ensures Inv(ttl, After(ttl, s, run))
    decreases |run|
  {
    if run == [] {
    } else {
      NextKeepsInv(ttl, s, run[0]);
      RunKeepsInv(ttl, Next(ttl, s, run[0]), run[1..]);
    }
  }

  // ---------- What is guaranteed ----------

  /** Two reservations of one key are more than the time to live apart. */
  lemma WinnersAreFarApart(ttl: Time, run: seq<Event>, p: Pid, q: Pid)
    requires IsRun(ttl, Start(), run)
    requires var t := After(ttl, Start(), run);
             p in t.wins && q in t.wins && p != q && p in t.requests && q in t.requests
             && t.requests[p].key == t.requests[q].key
    ensures var t := After(ttl, Start(), run);
            t.wins[p] + ttl < t.wins[q] || t.wins[q] + ttl < t.wins[p]
  {
    RunKeepsInv(ttl, Start(), run);
  }

  /** A reserved id is in the repository, or its winner stands between reserving and creating. */
  lemma ReservedIdIsCreatedOrComing(ttl: Time, run: seq<Event>, key: string)
    requires IsRun(ttl, Start(), run) && key in After(ttl, Start(), run).entries
    ensures var t := After(ttl, Start(), run);
            var winner := t.entries[key].winner;
            winner in t.requests && (winner in t.rows <==> t.requests[winner].phase != Creating(Won))
  {
    RunKeepsInv(ttl, Start(), run);
    var t := After(ttl, Start(), run);
    var winner := t.entries[key].winner;
    assert EntryIsWin(t, key);
    assert PhaseInv(ttl, t, winner, t.requests[winner]);
  }

  /**
   A loser's second read sends it off to create a second job exactly when the winner it read for
   still stands between reserving and creating.
   */
  lemma LoserFallsThroughExactlyInGap(ttl: Time, run: seq<Event>, pid: Pid)
    requires IsRun(ttl, Start(), run)
    requires var t := After(ttl, Start(), run);
             pid in t.requests && t.requests[pid].phase.SecondRead?
    ensures var t := After(ttl, Start(), run);
            var winner := t.requests[pid].phase.id;
            && winner in t.requests && t.requests[winner].key == t.requests[pid].key
            && (t.requests[winner].phase == Creating(Won) <==>
                  PhaseAfter(ttl, t, pid) == Creating(FellInGap(winner, t.turn)))
            && (PhaseAfter(ttl, t, pid) == Replayed(winner) <==> t.requests[winner].phase == Started(Won))
  {
    RunKeepsInv(ttl, Start(), run);
    var t := After(ttl, Start(), run);
    assert PhaseInv(ttl, t, pid, t.requests[pid]);
    var winner := t.requests[pid].phase.id;
    assert PhaseInv(ttl, t, winner, t.requests[winner]);
  }

  /** Past the reserve, or done without a replay. */
  predicate IsPastReserve(phase: Phase) {
    phase.Again? || phase.SecondRead? || phase.Creating? || phase.Started?
  }

  predicate HasWon(phase: Phase) {
    phase == Creating(Won) || phase == Started(Won)
  }

  /** The i-th event of the run is the request's reserve, which won exactly if no reservation was live. */
  ghost predicate ReservedAt(ttl: Time, run: seq<Event>, pid: Pid, won: bool, i: nat) {
    && i < |run| && run[i] == Step(pid)
    && var s := After(ttl, Start(), run[..i]);
       && pid in s.requests && s.requests[pid].phase.Reserving?
       && (won <==> !IsLive(ttl, s, s.requests[pid].key))
  }

  lemma StepPastReserve(ttl: Time, s: State, e: Event, pid: Pid)
    requires Enabled(s, e)
    requires pid in Next(ttl, s, e).requests && Next(ttl, s, e).requests[pid].key != ""
    requires IsPastReserve(Next(ttl, s, e).requests[pid].phase)
    ensures pid in s.requests && s.requests[pid].key == Next(ttl, s, e).requests[pid].key
    ensures var before, after := s.requests[pid].phase, Next(ttl, s, e).requests[pid].phase;
            if before.Reserving? then e == Step(pid) && (HasWon(after) <==> !IsLive(ttl, s, s.requests[pid].key))
            else IsPastReserve(before) && (HasWon(after) <==> HasWon(before))
  {
  }

  /**
   No request with a key creates its job without having tried to reserve the key, whatever its first look-up
   and read came to; it had the reservation exactly if no other was live at that moment.
   */
  lemma {:induction false} CreatorHasReserved(ttl: Time, run: seq<Event>, pid: Pid) returns (i: nat)
    requires IsRun(ttl, Start(), run)
    requires var t := After(ttl, Start(), run);
             pid in t.requests && t.requests[pid].key != "" && IsPastReserve(t.requests[pid].phase)
    ensures ReservedAt(ttl, run, pid, HasWon(After(ttl, Start(), run).requests[pid].phase), i)
    decreases |run|
  {
    var n := |run| - 1;
    Runs.RunLast(Enabled, NextOf(ttl), Start(), run);
    var s := After(ttl, Start(), run[..n]);
    StepPastReserve(ttl, s, run[n], pid);
    if s.requests[pid].phase.Reserving? {
      i := n;
    } else {
      i := CreatorHasReserved(ttl, run[..n], pid);
      assert run[..n][..i] == run[..i];
    }
  }

  ghost predicate LeavesAlone(run: seq<Event>, pid: Pid) {
    forall i :: 0 <= i < |run| ==> run[i] != Step(pid)
  }

  lemma {:induction false} OthersGrow(ttl: Time, s: State, run: seq<Event>, pid: Pid)
    requires IsRun(ttl, s, run) && LeavesAlone(run, pid) && pid in s.requests
    ensures var t := After(ttl, s, run);
            Grows(s, t) && pid in t.requests && t.requests[pid] == s.requests[pid]
    decreases |run|
  {
    if run == [] {
    } else {
      NextGrows(ttl, s, run[0]);
      OthersGrow(ttl, Next(ttl, s, run[0]), run[1..], pid);
    }
  }

  /**
   A request that looks a key up, first or second time, after the winner's row was created and before
   the reservation expires, answers with the winner's job, whatever others do before it reads the row.
   */
  lemma LookUpAfterCreateReplays(ttl: Time, s: State, pid: Pid, others: seq<Event>)
    requires Inv(ttl, s) && Enabled(s, Step(pid))
    requires s.requests[pid].phase.Again? || (s.requests[pid].phase == Begin && s.requests[pid].key != "")
    requires IsLive(ttl, s, s.requests[pid].key) && s.entries[s.requests[pid].key].winner in s.rows
    requires IsRun(ttl, Next(ttl, s, Step(pid)), others) && LeavesAlone(others, pid)
    ensures var t := After(ttl, Next(ttl, s, Step(pid)), others);
            Enabled(t, Step(pid)) && PhaseAfter(ttl, t, pid) == Replayed(s.entries[s.requests[pid].key].winner)
  {
    OthersGrow(ttl, Next(ttl, s, Step(pid)), others, pid);
  }

  /** Every answer with an earlier job names a winner of the same key, whose row exists. */
  lemma ReplaysNameARow(ttl: Time, run: seq<Event>, pid: Pid)
    requires IsRun(ttl, Start(), run)
    requires var t := After(ttl, Start(), run);
             pid in t.requests && t.requests[pid].phase.Replayed?
    ensures var t := After(ttl, Start(), run);
            var id := t.requests[pid].phase.id;
            id in t.rows && id in t.requests && t.requests[id].key == t.requests[pid].key && id in t.wins
  {
    RunKeepsInv(ttl, Start(), run);
    var t := After(ttl, Start(), run);
    assert PhaseInv(ttl, t, pid, t.requests[pid]);
  }

  /**
   Any two jobs for one key: either both won reservations, more than the time to live apart, or one of
   them was created without a reservation, by a request whose reserve met a live reservation and which then
   found none, the one it met having expired, or read for its winner's row too early.
   */
  lemma JobsForOneKey(ttl: Time, run: seq<Event>, p: Pid, q: Pid)
    requires IsRun(ttl, Start(), run)
    requires var t := After(ttl, Start(), run);
             p in t.rows && q in t.rows && p != q && p in t.requests && q in t.requests
             && t.requests[p].key == t.requests[q].key != ""
    ensures var t := After(ttl, Start(), run);
            || (p in t.wins && q in t.wins && (t.wins[p] + ttl < t.wins[q] || t.wins[q] + ttl < t.wins[p]))
            || (FellThrough(ttl, t, p) && exists i :: ReservedAt(ttl, run, p, false, i))
            || (FellThrough(ttl, t, q) && exists i :: ReservedAt(ttl, run, q, false, i))
  {
    RunKeepsInv(ttl, Start(), run);
    var t := After(ttl, Start(), run);
    if p !in t.wins {
      NotWonFellThrough(ttl, t, p);
      var i := CreatorHasReserved(ttl, run, p);
    } else if q !in t.wins {
      NotWonFellThrough(ttl, t, q);
      var i := CreatorHasReserved(ttl, run, q);
    } else {
      WinnersAreFarApart(ttl, run, p, q);
    }
  }

  /** A job without a reservation, of a request that met `winner` with the same key. */
  ghost predicate FellThrough(ttl: Time, t: State, p: Pid)
    requires p in t.requests
  {
    var key, phase := t.requests[p].key, t.requests[p].phase;
    && p !in t.wins && phase.Started?
    && match phase.cause
       case FoundNone(winner, lostAt, againAt) => ExpiredBetween(ttl, t, p, winner, lostAt, againAt)
       case FellInGap(winner, readAt) => winner != p && ReadTooEarly(t, winner, key, readAt)
       case _ => false
  }

  /** The winner's reservation was live when this request's reserve failed, and had expired at its second look. */
  ghost predicate ExpiredBetween(ttl: Time, t: State, p: Pid, winner: Pid, lostAt: Time, againAt: Time)
    requires p in t.requests
  {
    && winner != p && IsWinnerFor(t, winner, t.requests[p].key)
    && t.wins[winner] <= lostAt <= t.wins[winner] + ttl < againAt
  }

  lemma NotWonFellThrough(ttl: Time, t: State, p: Pid)
    requires Inv(ttl, t) && p in t.rows && p in t.requests && p !in t.wins && t.requests[p].key != ""
    ensures FellThrough(ttl, t, p)
  {
    assert PhaseInv(ttl, t, p, t.requests[p]);
  }

  // ---------- What is not ----------

  lemma Extend(ttl: Time, run: seq<Event>, e: Event) returns (longer: seq<Event>)
    requires IsRun(ttl, Start(), run) && Enabled(After(ttl, Start(), run), e)
    ensures IsRun(ttl, Start(), longer)
    ensures After(ttl, Start(), longer) == Next(ttl, After(ttl, Start(), run), e)
  {
    Runs.RunSnoc(Enabled, NextOf(ttl), Start(), run, e);
    longer := run + [e];
  }

  /** A winner that has reserved its key but not created its row, and another request in some phase. */
  function Reserved(key: string, other: Phase, turn: nat): (s: State) {
    State(0.0, map[key := Entry(0, 0.0)],
          map[0 := Request(key, Creating(Won)), 1 := Request(key, other)], map[], map[0 := 0.0], turn)
  }

  /** Two requests with one key, each in a phase of its own. */
  function Two(key: string, p: Phase, q: Phase, turn: nat): (s: State) {
    State(0.0, map[], map[0 := Request(key, p), 1 := Request(key, q)], map[], map[], turn)
  }

  lemma ReachReserving(ttl: Time, key: string) returns (run: seq<Event>)
    requires 0.0 <= ttl && key != ""
    ensures IsRun(ttl, Start(), run) && After(ttl, Start(), run) == Two(key, Reserving, Reserving, 4)
  {
    run := Extend(ttl, [], Arrive(0, key));
    run := Extend(ttl, run, Arrive(1, key));
    assert After(ttl, Start(), run) == Two(key, Begin, Begin, 2);
    run := Extend(ttl, run, Step(0));
    assert After(ttl, Start(), run) == Two(key, Reserving, Begin, 3);
    run := Extend(ttl, run, Step(1));
  }

  lemma ReachLost(ttl: Time, key: string) returns (run: seq<Event>)
    requires 0.0 <= ttl && key != ""
    ensures IsRun(ttl, Start(), run) && After(ttl, Start(), run) == Reserved(key, Again(0, 0.0), 6)
  {
    run := ReachReserving(ttl, key);
    run := Extend(ttl, run, Step(0));
    assert After(ttl, Start(), run) == Reserved(key, Reserving, 5);
    run := Extend(ttl, run, Step(1));
  }

  /** Uniqueness fails in that gap: one key, one moment, two jobs. */
  lemma TwoJobsForOneKey(ttl: Time, key: string) returns (run: seq<Event>)
    requires 0.0 <= ttl && key != ""
    ensures IsRun(ttl, Start(), run)
    ensures var t := After(ttl, Start(), run);
            t.rows == map[0 := 8, 1 := 9] && 0 in t.requests && 1 in t.requests
            && t.requests[0] == Request(key, Started(Won)) && t.requests[1] == Request(key, Started(FellInGap(0, 7)))
            && t.clock == 0.0
  {
    run := ReachLost(ttl, key);
    run := Extend(ttl, run, Step(1));
    assert After(ttl, Start(), run) == Reserved(key, SecondRead(0, false), 7);
    run := Extend(ttl, run, Step(1));
    run := Extend(ttl, run, Step(0));
    run := Extend(ttl, run, Step(1));
  }

  /** The other request finds that reservation expired, one second late, and creates its job. */
  function Late(ttl: Time, key: string): (s: State) {
    Reserved(key, Started(FoundNone(0, 0.0, ttl + 1.0)), 9).(clock := ttl + 1.0, rows := map[1 := 8])
  }

  lemma ReachLate(ttl: Time, key: string) returns (run: seq<Event>)
    requires 0.0 <= ttl && key != ""
    ensures IsRun(ttl, Start(), run) && After(ttl, Start(), run) == Late(ttl, key)
  {
    run := ReachLost(ttl, key);
    run := Extend(ttl, run, Tick(ttl + 1.0));
    assert After(ttl, Start(), run) == Reserved(key, Again(0, 0.0), 7).(clock := ttl + 1.0);
    run := Extend(ttl, run, Step(1));
    run := Extend(ttl, run, Step(1));
  }

  /** It fails as well when the reservation expires between the loser's reserve and its second look-up. */
  lemma UnreservedJobLetsAnotherIn(ttl: Time, key: string) returns (run: seq<Event>)
    requires 0.0 <= ttl && key != ""
    ensures IsRun(ttl, Start(), run)
    ensures var t := After(ttl, Start(), run);
            t.rows.Keys == {1, 2} && 1 in t.requests && 2 in t.requests
            && t.requests[1] == Request(key, Started(FoundNone(0, 0.0, ttl + 1.0)))
            && t.requests[2] == Request(key, Started(Won))
            && 2 in t.wins && t.wins[2] == t.clock == ttl + 1.0
  {
    run := ReachLate(ttl, key);
    run := Extend(ttl, run, Arrive(2, key));
    run := Extend(ttl, run, Step(2));
    run := Extend(ttl, run, Step(2));
    run := Extend(ttl, run, Step(2));
  }
}
