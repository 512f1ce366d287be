/**
 The protocol of idempotent task creation, over what it reads of each listed CRM task: its id and
 the marker in its text. A call may die after any number of its effects. Between calls the CRM may
 reorder its listing, and tasks without a marker may come and go.
 */
module CrmProtocol {
  import opened Wrappers
  import opened PagedSearch
  import opened FileStore
  import opened SeqFacts
  import Runs

  datatype Listed = Listed(id: string, mark: Option<string>)

  datatype Settings = Settings(idempotencyEnabled: bool, mockCrm: bool, credentials: bool)

  /** A call dies after its first `effects` effects, before it returns; or it does not. */
  datatype Crash = Never | AfterEffects(effects: nat)

  /** `mark` is the marker that will be read from the text this call would post, `newId` the id it would get. */
  datatype Call = Call(key: string, title: string, mark: Option<string>, newId: string, crash: Crash)

  datatype Outcome = Outcome(taskId: string, title: string, mocked: bool, reused: bool, key: string)

  datatype CrmState = CrmState(store: Records, listing: seq<Listed>)

  predicate Does(crash: Crash, effect: nat) {
    crash.Never? || effect <= crash.effects
  }

  function Marked(key: string): (matches: Listed -> bool) {
    (t: Listed) => t.mark == Some(key)
  }

  /** The task the paged search finds. */
  function Found(s: CrmState, key: string): (task: Option<Listed>) {
    LinearSearch(Visible(s.listing), Marked(key))
  }

  function MockId(key: string): (id: string) {
    "mock-task-" + key[..Min(12, |key|)]
  }

  function RecordIn(settings: Settings, s: CrmState, call: Call, taskId: string, title: string): (t: CrmState) {
    if settings.idempotencyEnabled then s.(store := s.store[call.key := Record(taskId, title, call.key)]) else s
  }

  function Answer(settings: Settings, call: Call, taskId: string, reused: bool): (outcome: Option<Outcome>) {
    if call.crash.Never? then Some(Outcome(taskId, call.title, settings.mockCrm, reused, call.key)) else None
  }

  /** The call gets as far as sending its task to the CRM. */
  predicate Posts(settings: Settings, s: CrmState, call: Call) {
    && !settings.mockCrm && settings.credentials
    && (settings.idempotencyEnabled ==> call.key !in s.store && Found(s, call.key).None?)
    && Does(call.crash, 1)
  }

  function CreateTask(settings: Settings, s: CrmState, call: Call): (r: (CrmState, Option<Outcome>)) {
    var enabled := settings.idempotencyEnabled;
    if enabled && call.key in s.store then
      (s, Answer(settings, call, s.store[call.key].taskId, true))
    else if !settings.mockCrm && !settings.credentials then
      // The listing is refused or, with idempotency off, the configuration check fails.
      (s, None)
    else if enabled && !settings.mockCrm && Found(s, call.key).Some? then
      var id := Found(s, call.key).value.id;
      (if Does(call.crash, 1) then RecordIn(settings, s, call, id, "") else s, Answer(settings, call, id, true))
    else if settings.mockCrm then
      var id := MockId(call.key);
      (if Does(call.crash, 1) then RecordIn(settings, s, call, id, call.title) else s,
       Answer(settings, call, id, false))
    else
      var posted := if Does(call.crash, 1) then s.(listing := [Listed(call.newId, call.mark)] + s.listing) else s;
      (if Does(call.crash, 2) then RecordIn(settings, posted, call, call.newId, call.title) else posted,
       Answer(settings, call, call.newId, false))
  }

  /** What a call that is not cut short answers, records and leaves in the listing. */
  lemma AnswerMeans(settings: Settings, s: CrmState, call: Call)
    requires call.crash.Never?
    ensures var (t, outcome) := CreateTask(settings, s, call);
            var known := settings.idempotencyEnabled && call.key in s.store;
            var listed := settings.idempotencyEnabled && !settings.mockCrm && Found(s, call.key).Some?;
            && (outcome.None? <==> !known && !settings.mockCrm && !settings.credentials)
            && (outcome.Some? ==>
                  var o, title := outcome.value, if listed then "" else call.title;
                  && o.title == call.title && o.key == call.key && o.mocked == settings.mockCrm
                  && (o.reused <==> known || listed)
                  && o.taskId == (if known then s.store[call.key].taskId
                                  else if listed then Found(s, call.key).value.id
                                  else if settings.mockCrm then "mock-task-" + call.key[..Min(12, |call.key|)]
                                  else call.newId)
                  && t.listing == (if o.reused || settings.mockCrm then s.listing
                                   else [Listed(call.newId, call.mark)] + s.listing)
                  && t.store == (if known || !settings.idempotencyEnabled then s.store
                                 else s.store[call.key := Record(o.taskId, title, call.key)]))
            && (outcome.None? ==> t == s)
  {
  }

  // ---------- Listings ----------

  /** The ids of the listed tasks that carry the key's marker. */
  function MarkedIds(listing: seq<Listed>, key: string): (ids: seq<string>) {
    if listing == [] then []
    else (if listing[0].mark == Some(key) then [listing[0].id] else []) + MarkedIds(listing[1..], key)
  }

  lemma {:induction false} SearchMeetsMarked(listing: seq<Listed>, key: string)
    ensures LinearSearch(listing, Marked(key)).None? <==> MarkedIds(listing, key) == []
    ensures LinearSearch(listing, Marked(key)).Some? ==>
      LinearSearch(listing, Marked(key)).value.id == MarkedIds(listing, key)[0]
  {
    if listing == [] {
    } else {
      SearchMeetsMarked(listing[1..], key);
    }
  }

  /** A marked task, if there is one, is among the first 1250 listed. */
  ghost predicate Reachable(listing: seq<Listed>, key: string) {
    LinearSearch(Visible(listing), Marked(key)).None? ==> MarkedIds(listing, key) == []
  }

  lemma FoundIsMarked(s: CrmState, key: string)
    ensures Found(s, key).Some? ==>
      MarkedIds(s.listing, key) != [] && Found(s, key).value.id == MarkedIds(s.listing, key)[0]
    ensures Found(s, key).None? && Reachable(s.listing, key) ==> MarkedIds(s.listing, key) == []
  {
    SearchMeetsMarked(s.listing, key);
    if Found(s, key).Some? {
      MatchInPrefix(Visible(s.listing), s.listing, Marked(key));
    }
  }

  /** What may happen to the listing between two calls: tasks that carry a marker stay, in some order. */
  ghost predicate SameMarked(before: seq<Listed>, after: seq<Listed>) {
    forall key :: multiset(MarkedIds(before, key)) == multiset(MarkedIds(after, key))
  }

  lemma SameIfSingle(a: seq<string>, b: seq<string>)
    requires multiset(a) == multiset(b)
    ensures |a| == |b|
    ensures |a| == 1 ==> a == b
  {
    SameMultisetSameSize(a, b);
    if |a| == 1 {
      assert a == [a[0]] && b == [b[0]];
      assert b[0] in multiset(a);
    }
  }

  // ---------- Runs ----------

  datatype Event = Create(call: Call) | Relist(listing: seq<Listed>)

  /** `posts` are the tasks sent to the CRM, `answers` the ids returned to callers, each with its key. */
  datatype Run = Run(state: CrmState, posts: seq<(string, string)>, answers: seq<(string, string)>)

  ghost predicate Enabled(r: Run, e: Event) {
    match e
    case Create(call) => call.mark == Some(call.key) && Reachable(r.state.listing, call.key)
    case Relist(listing) => SameMarked(r.state.listing, listing)
  }

  function Next(settings: Settings, r: Run, e: Event): (r': Run) {
    match e
    case Create(call) =>
      var (t, outcome) := CreateTask(settings, r.state, call);
      Run(t,
          if Posts(settings, r.state, call) then r.posts + [(call.key, call.newId)] else r.posts,
          if outcome.Some? then r.answers + [(call.key, outcome.value.taskId)] else r.answers)
    case Relist(listing) => r.(state := r.state.(listing := listing))
  }

  function NextOf(settings: Settings): (next: (Run, Event) -> Run) {
    (r, e) => Next(settings, r, e)
  }

  ghost predicate IsRun(settings: Settings, r: Run, run: seq<Event>) {
    Runs.IsRun(Enabled, NextOf(settings), r, run)
  }

  function After(settings: Settings, r: Run, run: seq<Event>): (r': Run) {
    Runs.After(NextOf(settings), r, run)
  }

  /** Before the first call: nothing recorded, and at most one task a key carries its marker. */
  ghost predicate Fresh(r: Run) {
    r.state.store == map[] && r.posts == [] && r.answers == []
    && forall key :: |MarkedIds(r.state.listing, key)| <= 1
  }

  function IdsFor(pairs: seq<(string, string)>, key: string): (ids: seq<string>) {
    if pairs == [] then []
    else IdsFor(pairs[..|pairs| - 1], key) + if pairs[|pairs| - 1].0 == key then [pairs[|pairs| - 1].1] else []
  }

  lemma IdsForSnoc(pairs: seq<(string, string)>, pair: (string, string), key: string)
    ensures IdsFor(pairs + [pair], key) == if pair.0 == key then IdsFor(pairs, key) + [pair.1] else IdsFor(pairs, key)
  {
  }

  /** What holds of one key at all times. */
  ghost predicate KeyInv(r: Run, key: string) {
    var marked := MarkedIds(r.state.listing, key);
    && |marked| <= 1
    && (key in r.state.store ==> marked == [r.state.store[key].taskId])
    && (IdsFor(r.posts, key) == [] || IdsFor(r.posts, key) == marked)
    && (IdsFor(r.answers, key) != [] ==> key in r.state.store)
    && (forall id :: id in IdsFor(r.answers, key) ==> marked == [id])
  }

  lemma RelistKeepsKeyInv(settings: Settings, r: Run, listing: seq<Listed>, key: string)
    requires KeyInv(r, key) && SameMarked(r.state.listing, listing)
    ensures KeyInv(Next(settings, r, Relist(listing)), key)
  {
    var before, after := MarkedIds(r.state.listing, key), MarkedIds(listing, key);
    assert multiset(before) == multiset(after);
    SameIfSingle(before, after);
  }

  lemma MarkedCons(task: Listed, listing: seq<Listed>, key: string)
    ensures MarkedIds([task] + listing, key)
         == if task.mark == Some(key) then [task.id] + MarkedIds(listing, key) else MarkedIds(listing, key)
  {
  }

  /** A call changes the listing only by posting, and the store only at its own key. */
  lemma CallTouches(settings: Settings, s: CrmState, call: Call)
    ensures var t := CreateTask(settings, s, call).0;
            && t.listing == (if Posts(settings, s, call) then [Listed(call.newId, call.mark)] + s.listing
                   else s.listing)
            && forall k :: k != call.key ==>
                 (k in t.store <==> k in s.store) && (k in s.store ==> t.store[k] == s.store[k])
  {
  }

  /** Where the recorded id of a call's own key comes from, and that an answer is always recorded. */
  lemma CallRecords(settings: Settings, s: CrmState, call: Call)
    requires settings.idempotencyEnabled && !settings.mockCrm
    ensures var (t, outcome) := CreateTask(settings, s, call);
            && (call.key in s.store ==> call.key in t.store && t.store[call.key] == s.store[call.key])
            && (call.key !in s.store && call.key in t.store ==>
                  if Found(s, call.key).Some? then t.store[call.key].taskId == Found(s, call.key).value.id
                  else Posts(settings, s, call) && t.store[call.key].taskId == call.newId)
            && (outcome.Some? ==> call.key in t.store && outcome.value.taskId == t.store[call.key].taskId)
  {
  }

  lemma OtherCallKeepsKeyInv(settings: Settings, r: Run, call: Call, key: string)
    requires KeyInv(r, key) && key != call.key && call.mark == Some(call.key)
    ensures KeyInv(Next(settings, r, Create(call)), key)
  {
    CallTouches(settings, r.state, call);
    MarkedCons(Listed(call.newId, call.mark), r.state.listing, key);
    IdsForSnoc(r.posts, (call.key, call.newId), key);
    var outcome := CreateTask(settings, r.state, call).1;
    if outcome.Some? {
      IdsForSnoc(r.answers, (call.key, outcome.value.taskId), key);
    }
  }

  /** A step that posts only when nothing is marked, and records and answers only the marked id. */
  lemma OwnStepKeepsKeyInv(r: Run, r': Run, key: string, posted: Option<string>, answer: Option<string>)
    requires KeyInv(r, key)
    requires MarkedIds(r'.state.listing, key) == if posted.Some? then [posted.value]
        else MarkedIds(r.state.listing, key)
    requires posted.Some? ==> key !in r.state.store && MarkedIds(r.state.listing, key) == []
    requires key in r.state.store ==> key in r'.state.store
    requires key in r'.state.store ==> MarkedIds(r'.state.listing, key) == [r'.state.store[key].taskId]
    requires answer.Some? ==> key in r'.state.store && answer.value == r'.state.store[key].taskId
    requires IdsFor(r'.posts, key) == if posted.Some? then IdsFor(r.posts, key) + [posted.value]
        else IdsFor(r.posts, key)
    requires IdsFor(r'.answers, key) == if answer.Some? then IdsFor(r.answers, key) + [answer.value]
        else IdsFor(r.answers, key)
    ensures KeyInv(r', key)
  {
  }

  function PostOf(settings: Settings, s: CrmState, call: Call): (posted: Option<string>) {
    if Posts(settings, s, call) then Some(call.newId) else None
  }

  function AnswerOf(settings: Settings, s: CrmState, call: Call): (answer: Option<string>) {
    var outcome := CreateTask(settings, s, call).1;
    if outcome.Some? then Some(outcome.value.taskId) else None
  }

  lemma OwnCallIsLogged(settings: Settings, r: Run, call: Call)
    ensures var r', key := Next(settings, r, Create(call)), call.key;
            var posted, answer := PostOf(settings, r.state, call), AnswerOf(settings, r.state, call);
            && IdsFor(r'.posts, key) == (if posted.Some? then IdsFor(r.posts, key) + [posted.value]
                   else IdsFor(r.posts, key))
            && IdsFor(r'.answers, key)
               == (if answer.Some? then IdsFor(r.answers, key) + [answer.value] else IdsFor(r.answers, key))
  {
    var outcome := CreateTask(settings, r.state, call).1;
    IdsForSnoc(r.posts, (call.key, call.newId), call.key);
    if outcome.Some? {
      IdsForSnoc(r.answers, (call.key, outcome.value.taskId), call.key);
    }
  }

  /** What an own call does to the marked tasks, the record and the answer, when the marked are within reach. */
  lemma OwnCallAgrees(settings: Settings, s: CrmState, call: Call)
    requires settings.idempotencyEnabled && !settings.mockCrm
    requires call.mark == Some(call.key) && Reachable(s.listing, call.key) && |MarkedIds(s.listing, call.key)| <= 1
    requires call.key in s.store ==> MarkedIds(s.listing, call.key) == [s.store[call.key].taskId]
    ensures var t, marked := CreateTask(settings, s, call).0, MarkedIds(s.listing, call.key);
            var posted, answer := PostOf(settings, s, call), AnswerOf(settings, s, call);
            && MarkedIds(t.listing, call.key) == (if posted.Some? then [posted.value] else marked)
            && (posted.Some? ==> call.key !in s.store && marked == [])
            && (call.key in s.store ==> call.key in t.store)
            && (call.key in t.store ==> MarkedIds(t.listing, call.key) == [t.store[call.key].taskId])
            && (answer.Some? ==> call.key in t.store && answer.value == t.store[call.key].taskId)
  {
    CallTouches(settings, s, call);
    CallRecords(settings, s, call);
    FoundIsMarked(s, call.key);
    MarkedCons(Listed(call.newId, call.mark), s.listing, call.key);
  }

  lemma OwnCallKeepsKeyInv(settings: Settings, r: Run, call: Call)
    requires settings.idempotencyEnabled && !settings.mockCrm
    requires KeyInv(r, call.key) && Enabled(r, Create(call))
    ensures KeyInv(Next(settings, r, Create(call)), call.key)
  {
    OwnCallIsLogged(settings, r, call);
    OwnCallAgrees(settings, r.state, call);
    OwnStepKeepsKeyInv(r, Next(settings, r, Create(call)), call.key,
                       PostOf(settings, r.state, call), AnswerOf(settings, r.state, call));
  }

  lemma {:induction false} RunKeepsKeyInv(settings: Settings, r: Run, run: seq<Event>, key: string)
    requires settings.idempotencyEnabled && !settings.mockCrm
    requires KeyInv(r, key) && IsRun(settings, r, run)
    ensures KeyInv(After(settings, r, run), key)
    decreases |run|
  {
    if run == [] {
    } else {
      match run[0] {
        case Create(call) =>
          if call.key == key {
            OwnCallKeepsKeyInv(settings, r, call);
          } else {
            OtherCallKeepsKeyInv(settings, r, call, key);
          }
        case Relist(listing) => RelistKeepsKeyInv(settings, r, listing, key);
      }
      RunKeepsKeyInv(settings, Next(settings, r, run[0]), run[1..], key);
    }
  }

  /** At most one task sent for the key, at most one held, and no answer but its id. */
  ghost predicate OneTaskOnly(t: Run, key: string) {
    && |IdsFor(t.posts, key)| <= 1
    && |MarkedIds(t.state.listing, key)| <= 1
    && (forall id :: id in IdsFor(t.answers, key) ==> MarkedIds(t.state.listing, key) == [id])
    && (forall id, id' :: id in IdsFor(t.answers, key) && id' in IdsFor(t.posts, key) ==> id == id')
  }

  /**
   Over any sequence of calls, with crashes at any step and restarts, the pipeline sends the CRM at
   most one task per key, the CRM holds at most one, and all answers for the key are that task's id.
   */
  lemma AtMostOneTaskPerKey(settings: Settings, r: Run, run: seq<Event>, key: string)
    requires settings.idempotencyEnabled && !settings.mockCrm
    requires Fresh(r) && IsRun(settings, r, run)
    ensures OneTaskOnly(After(settings, r, run), key)
  {
    assert KeyInv(r, key);
    RunKeepsKeyInv(settings, r, run, key);
  }

  // ---------- Runs of requests ----------

  /** What callers ask for: tasks of some kind, each made into a call by `callOf`. */
  datatype Request<T> = Ask(task: T, newId: string, crash: Crash) | Reorder(listing: seq<Listed>)

  /** The marker of a readable task reads back as its key. */
  ghost predicate ReadsBack<T(!new)>(callOf: (T, string, Crash) -> Call, readable: T -> bool) {
    forall task, newId, crash :: readable(task) ==>
      callOf(task, newId, crash).mark == Some(callOf(task, newId, crash).key)
  }

  function AsEvent<T>(callOf: (T, string, Crash) -> Call, q: Request<T>): (event: Event) {
    match q
    case Ask(task, newId, crash) => Create(callOf(task, newId, crash))
    case Reorder(listing) => Relist(listing)
  }

  /** Tasks asked for are readable and, if the CRM has them, within reach. */
  ghost predicate Allowed<T>(callOf: (T, string, Crash) -> Call, readable: T -> bool, r: Run, q: Request<T>) {
    match q
    case Ask(task, newId, crash) => readable(task) && Reachable(r.state.listing, callOf(task, newId, crash).key)
    case Reorder(listing) => SameMarked(r.state.listing, listing)
  }

  ghost function AllowedOf<T>(callOf: (T, string, Crash) -> Call, readable: T -> bool)
    : (allowed: (Run, Request<T>) -> bool)
  {
    (r, q) => Allowed(callOf, readable, r, q)
  }

  function NextRequest<T>(settings: Settings, callOf: (T, string, Crash) -> Call): (next: (Run, Request<T>) -> Run) {
    (r, q) => Next(settings, r, AsEvent(callOf, q))
  }

  ghost predicate IsRequestRun<T>(settings: Settings, callOf: (T, string, Crash) -> Call, readable: T -> bool, r: Run,
                                  run: seq<Request<T>>) {
    Runs.IsRun(AllowedOf(callOf, readable), NextRequest(settings, callOf), r, run)
  }

  function AfterRequests<T>(settings: Settings, callOf: (T, string, Crash) -> Call, r: Run,
                            run: seq<Request<T>>): (t: Run) {
    Runs.After(NextRequest(settings, callOf), r, run)
  }

  /** A run of requests is a run of the protocol. */
  lemma {:induction false} RequestsAreEvents<T(!new)>(settings: Settings, callOf: (T, string, Crash) -> Call,
                                                readable: T -> bool, r: Run, run: seq<Request<T>>)
    returns (events: seq<Event>)
    requires ReadsBack(callOf, readable) && IsRequestRun(settings, callOf, readable, r, run)
    ensures IsRun(settings, r, events) && After(settings, r, events) == AfterRequests(settings, callOf, r, run)
    decreases |run|
  {
    events := [];
    if run != [] {
      var e := AsEvent(callOf, run[0]);
      assert Enabled(r, e);
      var rest := RequestsAreEvents(settings, callOf, readable, Next(settings, r, e), run[1..]);
      events := [e] + rest;
      assert events[1..] == rest;
    }
  }

  lemma AtMostOneTaskPerRequestKey<T(!new)>(settings: Settings, callOf: (T, string, Crash) -> Call, readable: T -> bool,
                                      r: Run, run: seq<Request<T>>, key: string)
    requires settings.idempotencyEnabled && !settings.mockCrm && ReadsBack(callOf, readable)
    requires Fresh(r) && IsRequestRun(settings, callOf, readable, r, run)
    ensures OneTaskOnly(AfterRequests(settings, callOf, r, run), key)
  {
    var events := RequestsAreEvents(settings, callOf, readable, r, run);
    AtMostOneTaskPerKey(settings, r, events, key);
  }

  // ---------- After a crash ----------

  /**
   A call that died between sending its task and recording it: the next call for the key finds that
   task, and sends no second one, exactly when the marker can be read back from the task's text and
   the task is still among the first 1250 listed.
   */
  lemma RetryReusesExactlyIfMarked(settings: Settings, s: CrmState, first: Call, listing: seq<Listed>, retry: Call)
    requires settings.idempotencyEnabled && !settings.mockCrm && settings.credentials
    requires first.crash == AfterEffects(1) && retry.crash == Never && retry.key == first.key
    requires first.key !in s.store && MarkedIds(s.listing, first.key) == []
    requires SameMarked(CreateTask(settings, s, first).0.listing, listing)
    ensures var (died, none) := CreateTask(settings, s, first);
            var s' := died.(listing := listing);
            var (t, outcome) := CreateTask(settings, s', retry);
            && none.None? && outcome.Some?
            && (!Posts(settings, s', retry) <==> first.mark == Some(first.key) && Reachable(listing, first.key))
            && (outcome.value.reused <==> !Posts(settings, s', retry))
            && (outcome.value.reused ==> outcome.value.taskId == first.newId)
  {
    var key := first.key;
    FoundIsMarked(s, key);
    var died := CreateTask(settings, s, first).0;
    assert died.store == s.store && died.listing == [Listed(first.newId, first.mark)] + s.listing;
    assert died.listing[1..] == s.listing;
    assert MarkedIds(died.listing, key) == if first.mark == Some(key) then [first.newId] else [];
    FoundIsMarked(died.(listing := listing), key);
    assert multiset(MarkedIds(died.listing, key)) == multiset(MarkedIds(listing, key));
    SameIfSingle(MarkedIds(died.listing, key), MarkedIds(listing, key));
  }

  /** From an empty CRM: a task whose marker reads back as something else is sent again after such a crash. */
  lemma UnreadableIsSentTwice(settings: Settings, first: Call, retry: Call)
    requires settings.idempotencyEnabled && !settings.mockCrm && settings.credentials
    requires first.crash == AfterEffects(1) && retry.crash == Never && retry.key == first.key
    requires first.mark != Some(first.key)
    ensures var died := CreateTask(settings, CrmState(map[], []), first).0;
            var (done, outcome) := CreateTask(settings, died, retry);
            && done.listing == [Listed(retry.newId, retry.mark), Listed(first.newId, first.mark)]
            && outcome.Some? && outcome.value.taskId == retry.newId && !outcome.value.reused
  {
    var s := CrmState(map[], []);
    var died := CreateTask(settings, s, first).0;
    assert died == CrmState(map[], [Listed(first.newId, first.mark)]);
    assert Visible(died.listing) == died.listing;
    assert Found(died, first.key).None?;
  }
}
