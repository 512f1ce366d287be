/** The AmoCRM gateway: the protocol of `CrmProtocol` over task texts, a file store and a remote CRM. */
module AmoCrmGateway {
  import opened Wrappers
  import opened PagedSearch
  import opened FileStore
  import opened CrmProtocol
  import opened IdempotencyPolicy
  import opened Strings
  import Markers

  datatype RemoteTask = RemoteTask(id: string, text: string)

  function AsListed(task: RemoteTask): (listed: Listed) {
    Listed(task.id, ExtractMarker(task.text))
  }

  function Listing(tasks: seq<RemoteTask>): (listing: seq<Listed>)
    ensures |listing| == |tasks|
    ensures forall i :: 0 <= i < |tasks| ==> listing[i] == AsListed(tasks[i])
  {
    if tasks == [] then [] else [AsListed(tasks[0])] + Listing(tasks[1..])
  }

  /** The text a task is sent with, before its marker. */
  function BodyOf(task: CrmTaskRequest): (body: string) {
    task.title + "\n\n" + task.description
  }

  function CallFor(sha: string -> string, task: CrmTaskRequest, newId: string, crash: Crash): (call: Call) {
    var key := ComputeKey(sha, task);
    Call(key, task.title, ExtractMarker(AppendMarker(BodyOf(task), key)), newId, crash)
  }

  /** The text is the task's title and description, a blank line between them, and then the key's marker. */
  ghost predicate Carries(text: string, task: CrmTaskRequest, key: string) {
    var body, marker := task.title + "\n\n" + task.description, "[pipeline:idempotency:" + key + "]";
    && RStrip(body) <= text && Contains(text, marker)
    && text == if Contains(body, marker) then body else RStrip(body) + "\n\n" + marker
  }

  lemma CarriesItsTask(task: CrmTaskRequest, key: string)
    ensures Carries(AppendMarker(BodyOf(task), key), task, key)
  {
    AppendKeepsText(task.title + "\n\n" + task.description, key);
  }

  /** The CRM; its newest task is listed first. */
  class AmoCrm {
    var tasks: seq<RemoteTask>

    constructor ()
      ensures tasks == []
    {
      tasks := [];
    }

    method Post(newId: string, text: string)
      modifies this
      ensures tasks == [RemoteTask(newId, text)] + old(tasks)
    {
      tasks := [RemoteTask(newId, text)] + tasks;
    }
  }

  class AmoCrmGateway {
    const settings: Settings
    const store: FileIdempotencyStore
    const crm: AmoCrm

    ghost predicate Ready()
      reads this, store.disk
    {
      store.enabled == settings.idempotencyEnabled && !store.disk.locked
    }

    ghost function Now(): (s: CrmState)
      reads this, store, store.disk, crm
    {
      CrmState(store.Contents(), Listing(crm.tasks))
    }

    constructor (settings: Settings, store: FileIdempotencyStore, crm: AmoCrm)
      requires store.enabled == settings.idempotencyEnabled && !store.disk.locked
      ensures Ready() && this.settings == settings && this.store == store && this.crm == crm
    {
      this.settings, this.store, this.crm := settings, store, crm;
    }

    /**
     `_find_existing`; a crash after its one effect is the caller's to notice. Without credentials the CRM
     refuses the listing, which is an error.
     */
    method FindExisting(key: string, crash: Crash) returns (existing: Option<Record>, refused: bool)
      requires Ready()
      modifies store, store.disk
      ensures Ready()
      ensures var s := old(Now());
              if !settings.idempotencyEnabled then existing.None? && !refused && Now() == s
              else if key in s.store then existing == Some(s.store[key]) && !refused && Now() == s
              else if !settings.mockCrm && !settings.credentials then existing.None? && refused && Now() == s
              else if settings.mockCrm || Found(s, key).None? then existing.None? && !refused && Now() == s
              else
                var record := Record(Found(s, key).value.id, "", key);
                && existing == Some(record) && !refused
                && Now() == if Does(crash, 1) then s.(store := s.store[key := record]) else s
    {
      if !settings.idempotencyEnabled {
        return None, false;
      }
      var cached := store.Get(key);
      if cached.Some? {
        return cached, false;
      }
      if settings.mockCrm {
        return None, false;
      }
      if !settings.credentials {
        return None, true;
      }
      var found, _ := SearchPages(Listing(crm.tasks), Marked(key));
      if found.None? {
        return None, false;
      }
      var record := Record(found.value.id, "", key);
      if Does(crash, 1) {
        store.PutRecord(key, record);
        store.SaveRecords();
      }
      return Some(record), false;
    }

    /** `create_task`, once the key and the text to send are known. */
    method CreateKeyed(key: string, title: string, text: string, newId: string, crash: Crash)
      returns (outcome: Option<Outcome>)
      requires Ready()
      modifies store, store.disk, crm
      ensures Ready()
      ensures (Now(), outcome) == CrmProtocol.CreateTask(settings, old(Now()),
          Call(key, title, ExtractMarker(text), newId, crash))
      ensures crm.tasks == if Posts(settings, old(Now()), Call(key, title, ExtractMarker(text), newId, crash))
                           then [RemoteTask(newId, text)] + old(crm.tasks) else old(crm.tasks)
      ensures outcome.Some? ==>
        outcome.value.title == title && outcome.value.key == key && outcome.value.mocked == settings.mockCrm
    {
      var existing, refused := FindExisting(key, crash);
      if refused {
        return None;
      }
      if existing.Some? {
        return if crash.Never? then Some(Outcome(existing.value.taskId, title, settings.mockCrm, true, key)) else None;
      }
      var taskId;
      if settings.mockCrm {
        taskId := MockId(key);
        if !Does(crash, 1) {
          return None;
        }
      } else {
        if !settings.credentials || !Does(crash, 1) {
          return None;
        }
        crm.Post(newId, text);
        assert crm.tasks[1..] == old(crm.tasks);
        taskId := newId;
        if !Does(crash, 2) {
          return None;
        }
      }
      store.PutRecord(key, Record(taskId, title, key));
      if settings.idempotencyEnabled {
        store.SaveRecords();
      }
      return if crash.Never? then Some(Outcome(taskId, title, settings.mockCrm, false, key)) else None;
    }

    /** No answer means that the call raised an error or its process died. */
    method CreateTask(sha: string -> string, task: CrmTaskRequest, newId: string, crash: Crash)
      returns (outcome: Option<Outcome>)
      requires Ready()
      modifies store, store.disk, crm
      ensures Ready()
      ensures (Now(), outcome) == CrmProtocol.CreateTask(settings, old(Now()), CallFor(sha, task, newId, crash))
      ensures if Posts(settings, old(Now()), CallFor(sha, task, newId, crash))
              then exists text ::
                crm.tasks == [RemoteTask(newId, text)] + old(crm.tasks) && Carries(text, task, ComputeKey(sha, task))
              else crm.tasks == old(crm.tasks)
      ensures outcome.Some? ==>
        outcome.value.title == task.title && outcome.value.key == ComputeKey(sha, task)
        && outcome.value.mocked == settings.mockCrm
    {
      CarriesItsTask(task, ComputeKey(sha, task));
      var key := ComputeKey(sha, task);
      outcome := CreateKeyed(key, task.title, AppendMarker(BodyOf(task), key), newId, crash);
    }
  }

  // ---------- Runs of whole calls ----------

  function CallOf(sha: string -> string): (callOf: (CrmTaskRequest, string, Crash) -> Call) {
    (task, newId, crash) => CallFor(sha, task, newId, crash)
  }

  /** The tasks whose texts do not hide their keys. */
  function Readable(sha: string -> string): (readable: CrmTaskRequest -> bool) {
    task => Extractable(BodyOf(task), ComputeKey(sha, task))
  }

  lemma CallReadsBack(sha: string -> string, task: CrmTaskRequest, newId: string, crash: Crash)
    requires IsDigest(sha)
    ensures Readable(sha)(task) ==> CallFor(sha, task, newId, crash).mark == Some(CallFor(sha, task, newId, crash).key)
  {
    ExtractAfterAppend(BodyOf(task), ComputeKey(sha, task));
  }

  lemma ReadableReadsBack(sha: string -> string)
    requires IsDigest(sha)
    ensures ReadsBack(CallOf(sha), Readable(sha))
  {
    var callOf, readable := CallOf(sha), Readable(sha);
    forall task, newId, crash
      ensures readable(task) ==> callOf(task, newId, crash).mark == Some(callOf(task, newId, crash).key)
    {
      CallReadsBack(sha, task, newId, crash);
    }
  }

  /**
   Over any sequence of `create_task` calls for tasks whose texts do not hide their keys, with crashes at
   any step and restarts, at most one CRM task is sent and held for each task, and all answers
   for it are that CRM task's id.
   */
  lemma AtMostOneCrmTaskPerTask(settings: Settings, sha: string -> string, r: Run, run: seq<Request<CrmTaskRequest>>,
                                task: CrmTaskRequest)
    requires settings.idempotencyEnabled && !settings.mockCrm && IsDigest(sha)
    requires Fresh(r) && IsRequestRun(settings, CallOf(sha), Readable(sha), r, run)
    ensures OneTaskOnly(AfterRequests(settings, CallOf(sha), r, run), ComputeKey(sha, task))
  {
    ReadableReadsBack(sha);
    AtMostOneTaskPerRequestKey(settings, CallOf(sha), Readable(sha), r, run, ComputeKey(sha, task));
  }

  // ---------- After a crash ----------

  /**
   A task sent but not recorded before a crash is found again by the next call, and not sent twice,
   exactly when its title and description hold no other marker first and it is still among the
   first 1250 listed.
   */
  lemma RetryFindsItsTask(settings: Settings, s: CrmState, sha: string -> string, task: CrmTaskRequest,
                          firstId: string, listing: seq<Listed>, retryId: string)
    requires settings.idempotencyEnabled && !settings.mockCrm && settings.credentials && IsDigest(sha)
    requires ComputeKey(sha, task) !in s.store && MarkedIds(s.listing, ComputeKey(sha, task)) == []
    requires var died := CrmProtocol.CreateTask(settings, s, CallFor(sha, task, firstId, AfterEffects(1))).0;
             SameMarked(died.listing, listing)
    ensures var died := CrmProtocol.CreateTask(settings, s, CallFor(sha, task, firstId, AfterEffects(1))).0;
            var s' := died.(listing := listing);
            var key, retry := ComputeKey(sha, task), CallFor(sha, task, retryId, Never);
            var outcome := CrmProtocol.CreateTask(settings, s', retry).1;
            && outcome.Some?
            && (outcome.value.reused <==> Extractable(BodyOf(task), key) && Reachable(listing, key))
            && (outcome.value.reused <==> !Posts(settings, s', retry))
            && (outcome.value.reused ==> outcome.value.taskId == firstId)
  {
    ExtractAfterAppend(BodyOf(task), ComputeKey(sha, task));
    RetryReusesExactlyIfMarked(settings, s, CallFor(sha, task, firstId, AfterEffects(1)), listing,
                               CallFor(sha, task, retryId, Never));
  }

  const MARKED_TASK: CrmTaskRequest := CrmTaskRequest("[pipeline:idempotency:]", "")

  lemma MarkedTaskHidesItsKey(key: string)
    requires key != "" && ']' !in key
    ensures !Extractable(BodyOf(MARKED_TASK), key)
  {
    var body, marker := BodyOf(MARKED_TASK), Markers.Marker(MARKER_PREFIX, key);
    assert OccursAt(body, MARKER_PREFIX, 0);
    FindIs(body, MARKER_PREFIX, 0);
    assert marker[|MARKER_PREFIX|] == key[0] && body[|MARKER_PREFIX|] == ']';
    NoOccurrence(body, marker, 0, |MARKER_PREFIX|);
  }

  /**
   A task whose own title holds a marker prefix: a crash after the first create and before the record,
   and the retry sends it a second time.
   */
  lemma MarkedTaskIsSentTwice(settings: Settings, sha: string -> string, firstId: string, retryId: string)
    requires settings.idempotencyEnabled && !settings.mockCrm && settings.credentials && IsDigest(sha)
    ensures var first := CallFor(sha, MARKED_TASK, firstId, AfterEffects(1));
            var retry := CallFor(sha, MARKED_TASK, retryId, Never);
            var died := CrmProtocol.CreateTask(settings, CrmState(map[], []), first).0;
            var (done, outcome) := CrmProtocol.CreateTask(settings, died, retry);
            && done.listing == [Listed(retryId, retry.mark), Listed(firstId, first.mark)]
            && outcome.Some? && outcome.value.taskId == retryId && !outcome.value.reused
  {
    var key := ComputeKey(sha, MARKED_TASK);
    MarkedTaskHidesItsKey(key);
    ExtractAfterAppend(BodyOf(MARKED_TASK), key);
    UnreadableIsSentTwice(settings, CallFor(sha, MARKED_TASK, firstId, AfterEffects(1)),
                          CallFor(sha, MARKED_TASK, retryId, Never));
  }
}
