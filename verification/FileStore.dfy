/**
 The CRM idempotency store: one JSON file shared by any number of processes. A write takes the
 file lock, reloads, changes the records, writes a temporary file and renames it over the store; a
 read takes no file lock. Any process may die at any step, which releases its lock and leaves its
 temporary file behind.
 */
module FileStore {
  import opened Wrappers
  import Runs

  datatype Record = Record(taskId: string, title: string, idempotencyKey: string)

  type Records = map<string, Record>

  /** What a path holds: nothing, a partly written text, or a whole snapshot. */
  datatype Content = Absent | Torn | Whole(records: Records)

  /** `_load`: a missing or unreadable file is an empty store. */
  function Load(content: Content): (records: Records) {
    if content.Whole? then content.records else map[]
  }

  datatype Op = Put(key: string, record: Record) | Save

  function Apply(op: Op, records: Records): (after: Records) {
    match op
    case Put(key, record) => records[key := record]
    case Save => records
  }

  /** The store after a sequence of puts. */
  function Fold(puts: seq<Op>): (records: Records) {
    if puts == [] then map[] else Apply(puts[|puts| - 1], Fold(puts[..|puts| - 1]))
  }

  type Pid = nat

  /** Where a process is; every phase from `Locked` to `Renamed` holds the file lock. */
  datatype Phase =
    | Idle
    | Locked(op: Op)
    | Reloaded(op: Op, snapshot: Records)
    | Writing(op: Op, snapshot: Records)
    | Written(op: Op, snapshot: Records)
    | Renamed(op: Op, index: nat)
    | Reading(start: nat, ackedBefore: set<nat>)

  /** A finished read: how many puts had been renamed when it began and when it read, and what it saw. */
  datatype Read = Read(start: nat, at: nat, ackedBefore: set<nat>, records: Records)

  /** `renamed`, `acked` and `seen` are history: the puts in rename order, those returned from, the reads. */
  datatype State = State(
    file: Content,
    temp: Content,
    lock: Option<Pid>,
    phases: map<Pid, Phase>,
    renamed: seq<Op>,
    acked: set<nat>,
    seen: seq<Read>)

  datatype Event =
    | Acquire(pid: Pid, op: Op)
    | Reload(pid: Pid)
    | OpenTemp(pid: Pid)
    | FinishTemp(pid: Pid)
    | Rename(pid: Pid)
    | Release(pid: Pid)
    | GetBegins(pid: Pid)
    | GetReads(pid: Pid)
    | Crash(pid: Pid)

  function PhaseOf(s: State, pid: Pid): (phase: Phase) {
    if pid in s.phases then s.phases[pid] else Idle
  }

  function Start(): (s: State) {
    State(Absent, Absent, None, map[], [], {}, [])
  }

  predicate Enabled(s: State, e: Event) {
    var phase := PhaseOf(s, e.pid);
    match e
    case Acquire(_, _) => phase.Idle? && s.lock.None?
    case Reload(_) => phase.Locked?
    case OpenTemp(_) => phase.Reloaded?
    case FinishTemp(_) => phase.Writing?
    case Rename(_) => phase.Written?
    case Release(_) => phase.Renamed?
    case GetBegins(_) => phase.Idle?
    case GetReads(_) => phase.Reading?
    case Crash(_) => true
  }

  function Move(s: State, pid: Pid, phase: Phase): (t: State) {
    s.(phases := s.phases[pid := phase])
  }

  function Next(s: State, e: Event): (t: State)
    requires Enabled(s, e)
  {
    var pid, phase := e.pid, PhaseOf(s, e.pid);
    match e
    case Acquire(_, op) => Move(s, pid, Locked(op)).(lock := Some(pid))
    case Reload(_) => Move(s, pid, Reloaded(phase.op, Apply(phase.op, Load(s.file))))
    case OpenTemp(_) => Move(s, pid, Writing(phase.op, phase.snapshot)).(temp := Torn)
    case FinishTemp(_) => Move(s, pid, Written(phase.op, phase.snapshot)).(temp := Whole(phase.snapshot))
    case Rename(_) =>
      Move(s, pid, Renamed(phase.op, |s.renamed|)).(
        file := s.temp, temp := Absent,
        renamed := if phase.op.Put? then s.renamed + [phase.op] else s.renamed)
    case Release(_) =>
      Move(s, pid, Idle).(lock := None, acked := if phase.op.Put? then s.acked + {phase.index} else s.acked)
    case GetBegins(_) =>
      if s.file.Absent? then s.(seen := s.seen + [Read(|s.renamed|, |s.renamed|, s.acked, map[])])
      else Move(s, pid, Reading(|s.renamed|, s.acked))
    case GetReads(_) =>
      Move(s, pid, Idle).(seen := s.seen + [Read(phase.start, |s.renamed|, phase.ackedBefore, Load(s.file))])
    case Crash(_) => Move(s, pid, Idle).(lock := if s.lock == Some(pid) then None else s.lock)
  }

  function NextOf(): (next: (State, Event) -> State) {
    (s, e) => if Enabled(s, e) then Next(s, e) else s
  }

  predicate IsRun(s: State, run: seq<Event>) {
    Runs.IsRun(Enabled, NextOf(), s, run)
  }

  function After(s: State, run: seq<Event>): (t: State) {
    Runs.After(NextOf(), s, run)
  }

  // ---------- What every step keeps ----------

  predicate HoldsLock(phase: Phase) {
    !phase.Idle? && !phase.Reading?
  }

  /** What a phase says about the shared state. */
  ghost predicate PhaseInv(s: State, phase: Phase) {
    match phase
    case Idle => true
    case Locked(_) => true
    case Reloaded(op, snapshot) => snapshot == Apply(op, Fold(s.renamed))
    case Writing(op, snapshot) => snapshot == Apply(op, Fold(s.renamed))
    case Written(op, snapshot) => snapshot == Apply(op, Fold(s.renamed)) && s.temp == Whole(snapshot)
    case Renamed(op, index) => op.Put? ==> index < |s.renamed| && s.renamed[index] == op
    case Reading(start, ackedBefore) => start <= |s.renamed| && forall i :: i in ackedBefore ==> i < start
  }

  /** A read saw the store after the first `at` puts, and missed no put acknowledged before it began. */
  ghost predicate ReadInv(renamed: seq<Op>, r: Read) {
    && r.start <= r.at <= |renamed|
    && r.records == Fold(renamed[..r.at])
    && forall i :: i in r.ackedBefore ==> i < r.start
  }

  ghost predicate Inv(s: State) {
    && !s.file.Torn?
    && Load(s.file) == Fold(s.renamed)
    && (forall pid :: pid in s.phases && HoldsLock(s.phases[pid]) ==> s.lock == Some(pid))
    && (forall pid :: pid in s.phases ==> PhaseInv(s, s.phases[pid]))
    && (forall i :: i in s.acked ==> i < |s.renamed|)
    && (forall k :: 0 <= k < |s.seen| ==> ReadInv(s.renamed, s.seen[k]))
  }

  lemma MoreRenamesKeepReads(renamed: seq<Op>, op: Op, r: Read)
    requires ReadInv(renamed, r)
    ensures ReadInv(renamed + [op], r)
  {
    assert (renamed + [op])[..r.at] == renamed[..r.at];
  }

  lemma RenameKeepsReads(s: State, pid: Pid)
    requires Inv(s) && Enabled(s, Rename(pid))
    ensures var t := Next(s, Rename(pid));
            forall k :: 0 <= k < |t.seen| ==> ReadInv(t.renamed, t.seen[k])
  {
    var op := PhaseOf(s, pid).op;
    forall k | 0 <= k < |s.seen|
      ensures ReadInv(s.renamed + [op], s.seen[k])
    {
      MoreRenamesKeepReads(s.renamed, op, s.seen[k]);
    }
  }

  /** The process that renames holds the lock, so the phases of the others say little. */
  lemma RenameKeepsPhases(s: State, pid: Pid)
    requires Inv(s) && Enabled(s, Rename(pid))
    ensures var t := Next(s, Rename(pid));
            forall q :: q in t.phases ==> PhaseInv(t, t.phases[q])
  {
    var t := Next(s, Rename(pid));
    assert s.renamed <= t.renamed;
    forall q | q in t.phases
      ensures PhaseInv(t, t.phases[q])
    {
      if q != pid {
        assert PhaseInv(s, s.phases[q]) && !HoldsLock(s.phases[q]);
      }
    }
  }

  lemma RenameKeepsFile(s: State, pid: Pid)
    requires Inv(s) && Enabled(s, Rename(pid))
    ensures var t := Next(s, Rename(pid));
            !t.file.Torn? && Load(t.file) == Fold(t.renamed)
  {
    var op := PhaseOf(s, pid).op;
    assert PhaseInv(s, s.phases[pid]);
    assert (s.renamed + [op])[..|s.renamed|] == s.renamed;
  }

  lemma RenameKeepsInv(s: State, pid: Pid)
    requires Inv(s) && Enabled(s, Rename(pid))
    ensures Inv(Next(s, Rename(pid)))
  {
    RenameKeepsFile(s, pid);
    RenameKeepsPhases(s, pid);
    RenameKeepsReads(s, pid);
  }

  lemma NextKeepsInv(s: State, e: Event)
    requires Inv(s) && Enabled(s, e)
    ensures Inv(Next(s, e))
  {
    assert s.renamed[..|s.renamed|] == s.renamed;
    assert e.pid in s.phases ==> PhaseInv(s, s.phases[e.pid]);
    if e.Rename? {
      RenameKeepsInv(s, e.pid);
    } else {
      var t := Next(s, e);
      forall q | q in t.phases && q != e.pid
        ensures PhaseInv(t, t.phases[q])
      {
        assert PhaseInv(s, s.phases[q]);
      }
    }
  }

  lemma {:induction false} RunKeepsInv(s: State, run: seq<Event>)
    requires Inv(s) && IsRun(s, run)
    ensures Inv(After(s, run))
    decreases |run|
  {
    if run == [] {
    } else {
      NextKeepsInv(s, run[0]);
      RunKeepsInv(Next(s, run[0]), run[1..]);
    }
  }

  /** The last put of a key decides what the store holds for it. */
  ghost predicate LastPutOf(puts: seq<Op>, j: nat, key: string) {
    j < |puts| && puts[j].Put? && puts[j].key == key
    && forall k :: j < k < |puts| ==> puts[k].Save? || puts[k].key != key
  }

  lemma {:induction false} FoldHoldsLastPut(puts: seq<Op>, i: nat) returns (j: nat)
    requires i < |puts| && puts[i].Put?
    ensures i <= j && LastPutOf(puts, j, puts[i].key)
    ensures puts[i].key in Fold(puts) && Fold(puts)[puts[i].key] == puts[j].record
    decreases |puts|
  {
    var n := |puts| - 1;
    if puts[n].Put? && puts[n].key == puts[i].key {
      j := n;
    } else {
      j := FoldHoldsLastPut(puts[..n], i);
    }
  }

  /**
   In every interleaving of puts, saves and gets by any number of processes, with crashes at any
   step: the file is never torn and is the fold of the renamed puts in rename order; every read saw
   a whole prefix of that order that includes every put acknowledged before the read began.
   */
  lemma EveryRunIsLinear(run: seq<Event>)
    requires IsRun(Start(), run)
    ensures var t := After(Start(), run);
            && !t.file.Torn? && Load(t.file) == Fold(t.renamed)
            && forall k :: 0 <= k < |t.seen| ==> ReadInv(t.renamed, t.seen[k])
  {
    RunKeepsInv(Start(), run);
  }

  /** No acknowledged record is lost: the file holds it, or a later put of the same key. */
  lemma NoAcknowledgedPutIsLost(run: seq<Event>, i: nat) returns (j: nat)
    requires IsRun(Start(), run) && i in After(Start(), run).acked
    ensures var t := After(Start(), run);
            && i <= j < |t.renamed| && t.renamed[i].Put?
            && LastPutOf(t.renamed, j, t.renamed[i].key)
            && t.renamed[i].key in Load(t.file) && Load(t.file)[t.renamed[i].key] == t.renamed[j].record
  {
    RunKeepsInv(Start(), run);
    OnlyPutsAreRenamed(Start(), run);
    j := FoldHoldsLastPut(After(Start(), run).renamed, i);
  }

  lemma {:induction false} OnlyPutsAreRenamed(s: State, run: seq<Event>)
    requires IsRun(s, run) && forall i :: 0 <= i < |s.renamed| ==> s.renamed[i].Put?
    ensures forall i :: 0 <= i < |After(s, run).renamed| ==> After(s, run).renamed[i].Put?
    decreases |run|
  {
    if run == [] {
    } else {
      OnlyPutsAreRenamed(Next(s, run[0]), run[1..]);
      assert After(s, run) == After(Next(s, run[0]), run[1..]);
    }
  }

  /** `save()` changes nothing: whatever its step, the records and the history of puts stay the same. */
  lemma SaveChangesNothing(s: State, e: Event)
    requires Inv(s) && Enabled(s, e)
    requires e.Acquire? ==> e.op.Save?
    requires HoldsLock(PhaseOf(s, e.pid)) ==> PhaseOf(s, e.pid).op.Save?
    ensures Load(Next(s, e).file) == Load(s.file)
    ensures Next(s, e).renamed == s.renamed && Next(s, e).acked == s.acked
  {
    NextKeepsInv(s, e);
  }

  // ---------- One process ----------

  /** The steps of an undisturbed `put` or `save`. */
  function StepsOf(pid: Pid, op: Op): (run: seq<Event>) {
    [Acquire(pid, op), Reload(pid), OpenTemp(pid), FinishTemp(pid), Rename(pid), Release(pid)]
  }

  /** Undisturbed, the steps replace the whole file by the changed records and leave nothing behind. */
  lemma StepsReplaceFile(s: State, pid: Pid, op: Op)
    requires Inv(s) && PhaseOf(s, pid).Idle? && s.lock.None?
    ensures IsRun(s, StepsOf(pid, op))
    ensures var t := After(s, StepsOf(pid, op));
            && t.file == Whole(Apply(op, Load(s.file))) && t.temp == Absent && t.lock.None?
            && PhaseOf(t, pid).Idle?
            && t.renamed == (if op.Put? then s.renamed + [op] else s.renamed)
            && t.acked == (if op.Put? then s.acked + {|s.renamed|} else s.acked)
  {
    var run := Extend(s, [], Acquire(pid, op));
    run := Extend(s, run, Reload(pid));
    run := Extend(s, run, OpenTemp(pid));
    run := Extend(s, run, FinishTemp(pid));
    run := Extend(s, run, Rename(pid));
    run := Extend(s, run, Release(pid));
    assert run == StepsOf(pid, op);
  }

  lemma Extend(s: State, run: seq<Event>, e: Event) returns (longer: seq<Event>)
    requires IsRun(s, run) && Enabled(After(s, run), e)
    ensures longer == run + [e]
    ensures IsRun(s, longer) && After(s, longer) == Next(After(s, run), e)
  {
    Runs.RunSnoc(Enabled, NextOf(), s, run, e);
    longer := run + [e];
  }

  /** The directory the store lives in: the store itself, its temporary file, and its lock file. */
  class Disk {
    var file: Content
    var temp: Content
    var locked: bool

    constructor ()
      ensures file == Absent && temp == Absent && !locked
    {
      file, temp, locked := Absent, Absent, false;
    }

    /** Write a temporary file, then rename it over the store. */
    method AtomicWriteText(records: Records)
      modifies this
      ensures file == Whole(records) && temp == Absent && locked == old(locked)
    {
      temp := Torn;
      temp := Whole(records);
      file := temp;
      temp := Absent;
    }
  }

  class FileIdempotencyStore {
    const enabled: bool
    const disk: Disk
    var snapshot: Records

    /** What a reader of the store finds now. */
    function Contents(): (records: Records)
      reads this, disk
    {
      if enabled then Load(disk.file) else map[]
    }

    constructor (disk: Disk, enabled: bool)
      ensures this.disk == disk && this.enabled == enabled && snapshot == Contents()
    {
      this.disk, this.enabled := disk, enabled;
      snapshot := if enabled then Load(disk.file) else map[];
    }

    method ReloadLocked()
      modifies this
      ensures snapshot == Contents() == old(Contents())
    {
      snapshot := if !enabled then map[] else Load(disk.file);
    }

    method Get(key: string) returns (found: Option<Record>)
      modifies this
      ensures found == if key in Contents() then Some(Contents()[key]) else None
      ensures !enabled ==> found.None?
      ensures enabled && disk.file.Whole? ==>
        found == if key in disk.file.records then Some(disk.file.records[key]) else None
      ensures !disk.file.Whole? ==> found.None?
      ensures Contents() == old(Contents()) == snapshot
    {
      ReloadLocked();
      found := if key in snapshot then Some(snapshot[key]) else None;
    }

    /** The lock is free, or the call waits until it is. */
    method PutRecord(key: string, record: Record)
      requires !disk.locked
      modifies this, disk
      ensures !disk.locked
      ensures enabled ==> disk.file == Whole(Apply(Put(key, record), old(Load(disk.file)))) && disk.temp == Absent
      ensures !enabled ==> unchanged(disk)
    {
      if !enabled {
        return;
      }
      disk.locked := true;
      ReloadLocked();
      snapshot := snapshot[key := record];
      disk.AtomicWriteText(snapshot);
      disk.locked := false;
    }

    method SaveRecords()
      requires !disk.locked
      modifies this, disk
      ensures !disk.locked
      ensures enabled ==> disk.file == Whole(Apply(Save, old(Load(disk.file)))) && disk.temp == Absent
      ensures !enabled ==> unchanged(disk)
      ensures Contents() == old(Contents())
    {
      if !enabled {
        return;
      }
      disk.locked := true;
      ReloadLocked();
      disk.AtomicWriteText(snapshot);
      disk.locked := false;
    }
  }
}
