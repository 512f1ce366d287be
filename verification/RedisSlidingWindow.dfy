/**
 The Redis rate limiter, for one client key. A call is two separate commands: an atomic
 transaction (purge, add, count, renew the expiry) and, when the count is over the limit, a later
 removal of the member it added. Other replicas run in between, a replica may die before the
 removal, and Redis may drop the whole key once its expiry passes.

 Redis has its own clock; a replica's timestamp is read before its transaction reaches Redis.
 `lag` bounds how far a timestamp may be behind the Redis clock when the transaction runs, and
 `ahead` how far it may be in front of it.
 */
module RedisSlidingWindow {
  import opened SlidingWindow
  import opened SetFacts
  import Runs

  const KEY_TTL: Time := 61.0

  type Member = nat

  /** `admitted` and `pending` are history: the calls let through, and the denied ones not removed yet. */
  datatype State = State(
    zset: map<Member, Time>,
    expireAt: Time,
    clock: Time,
    lastStamp: Time,
    admitted: map<Member, Time>,
    pending: map<Member, Time>)

  datatype Event =
    | Exec(member: Member, stamp: Time)
    | Remove(member: Member)
    | KeyExpires
    | Tick(to: Time)

  function Start(): (s: State) {
    State(map[], 0.0, 0.0, 0.0, map[], map[])
  }

  /** ZREMRANGEBYSCORE key 0 (stamp - 60). */
  function PurgeSet(zset: map<Member, Time>, stamp: Time): (kept: map<Member, Time>) {
    map m | m in zset && !(0.0 <= zset[m] <= stamp - WINDOW) :: zset[m]
  }

  function AfterAdd(s: State, member: Member, stamp: Time): (zset: map<Member, Time>) {
    PurgeSet(s.zset, stamp)[member := stamp]
  }

  /** The answer of the transaction: the count, the new member included, is within the limit. */
  predicate Admits(limit: int, s: State, member: Member, stamp: Time) {
    |AfterAdd(s, member, stamp)| <= limit
  }

  /** What may happen at all: members are fresh, and timestamps are within the skew. */
  predicate Possible(lag: Time, ahead: Time, s: State, e: Event) {
    match e
    case Exec(member, stamp) =>
      && member !in s.admitted && member !in s.pending && member !in s.zset
      && s.clock - lag <= stamp <= s.clock + ahead
    case Remove(member) => member in s.pending
    case KeyExpires => s.zset != map[] && s.expireAt <= s.clock
    case Tick(to) => s.clock <= to
  }

  /** What may happen when transactions reach Redis in the order of their timestamps. */
  predicate Enabled(lag: Time, ahead: Time, s: State, e: Event) {
    Possible(lag, ahead, s, e) && (e.Exec? ==> s.lastStamp <= e.stamp)
  }

  function Next(limit: int, s: State, e: Event): (t: State) {
    match e
    case Exec(member, stamp) =>
      var t := s.(zset := AfterAdd(s, member, stamp), expireAt := s.clock + KEY_TTL, lastStamp := stamp);
      if Admits(limit, s, member, stamp) then t.(admitted := s.admitted[member := stamp])
      else t.(pending := s.pending[member := stamp])
    case Remove(member) => s.(zset := s.zset - {member}, pending := s.pending - {member})
    case KeyExpires => s.(zset := map[])
    case Tick(to) => s.(clock := to)
  }

  function InOrder(lag: Time, ahead: Time): (enabled: (State, Event) -> bool) {
    (s, e) => Enabled(lag, ahead, s, e)
  }

  function NextOf(limit: int): (next: (State, Event) -> State) {
    (s, e) => Next(limit, s, e)
  }

  predicate IsRun(lag: Time, ahead: Time, limit: int, s: State, run: seq<Event>) {
    Runs.IsRun(InOrder(lag, ahead), NextOf(limit), s, run)
  }

  function After(limit: int, s: State, run: seq<Event>): (t: State) {
    Runs.After(NextOf(limit), s, run)
  }

  /** The admitted calls in the half-open 60 seconds ending at `now`. */
  function AdmittedIn(admitted: map<Member, Time>, now: Time): (ms: set<Member>) {
    set m | m in admitted && admitted[m] <= now && Live(HalfOpen, admitted[m], now)
  }

  ghost predicate WithinLimit(limit: int, s: State) {
    forall now: Time :: |AdmittedIn(s.admitted, now)| <= limit
  }

  function Max(a: Time, b: Time): Time { if a < b then b else a }

  /** The earliest timestamp a later transaction can carry. */
  function Horizon(lag: Time, s: State): Time { Max(s.lastStamp, s.clock - lag) }

  /** Every member of the set is an admitted call or a denied one not removed yet, with its timestamp. */
  ghost predicate Accounted(s: State) {
    && s.admitted.Keys !! s.pending.Keys
    && (forall m :: m in s.zset ==> 0.0 <= s.zset[m])
    && (forall m :: m in s.zset ==>
          || (m in s.admitted && s.zset[m] == s.admitted[m])
          || (m in s.pending && s.zset[m] == s.pending[m]))
  }

  /** Every admitted call that a later transaction must still count is in the set. */
  ghost predicate Covered(lag: Time, s: State) {
    forall m :: m in s.admitted && Live(HalfOpen, s.admitted[m], Horizon(lag, s)) ==> m in s.zset
  }

  ghost predicate Inv(lag: Time, ahead: Time, s: State) {
    && 0.0 <= s.clock && 0.0 <= s.lastStamp
    && Accounted(s)
    && Covered(lag, s)
    && (forall m :: m in s.admitted ==> s.admitted[m] <= s.lastStamp)
    && (forall m :: m in s.pending ==> s.pending[m] <= s.lastStamp)
    && (s.zset != map[] ==> s.lastStamp <= s.expireAt - KEY_TTL + ahead)
  }

  ghost predicate Skews(lag: Time, ahead: Time) {
    0.0 <= lag && 0.0 <= ahead && lag + ahead <= 1.0
  }

  lemma ExecKeepsAccounted(limit: int, s: State, member: Member, stamp: Time)
    requires Accounted(s) && 0.0 <= stamp && member !in s.admitted && member !in s.pending
    ensures Accounted(Next(limit, s, Exec(member, stamp)))
  {
  }

  lemma ExecKeepsCovered(lag: Time, limit: int, s: State, member: Member, stamp: Time)
    requires Covered(lag, s) && Accounted(s) && member !in s.admitted && member !in s.pending
    requires s.lastStamp <= stamp && s.clock - lag <= stamp
    ensures Covered(lag, Next(limit, s, Exec(member, stamp)))
  {
    var t := Next(limit, s, Exec(member, stamp));
    forall m | m in t.admitted && Live(HalfOpen, t.admitted[m], stamp)
      ensures m in t.zset
    {
      assert m != member ==> Live(HalfOpen, s.admitted[m], Horizon(lag, s));
    }
  }

  lemma NextKeepsInv(lag: Time, ahead: Time, limit: int, s: State, e: Event)
    requires Skews(lag, ahead) && Inv(lag, ahead, s) && Enabled(lag, ahead, s, e)
    ensures Inv(lag, ahead, Next(limit, s, e))
  {
    match e
    case Exec(member, stamp) =>
      ExecKeepsAccounted(limit, s, member, stamp);
      ExecKeepsCovered(lag, limit, s, member, stamp);
    case Remove(member) =>
    case KeyExpires =>
      // The entries dropped are older than anything a later transaction still counts.
      assert s.lastStamp <= s.clock - lag - WINDOW;
    case Tick(to) =>
  }

  lemma WindowIsInSet(lag: Time, ahead: Time, limit: int, s: State, member: Member, stamp: Time, now: Time)
    requires Inv(lag, ahead, s) && Enabled(lag, ahead, s, Exec(member, stamp)) && stamp <= now
    ensures AdmittedIn(s.admitted[member := stamp], now) <= AfterAdd(s, member, stamp).Keys
  {
  }

  /** The admitted calls still live at an admission are all counted by it. */
  lemma NextKeepsLimit(lag: Time, ahead: Time, limit: int, s: State, e: Event)
    requires limit > 0 && Inv(lag, ahead, s) && Enabled(lag, ahead, s, e) && WithinLimit(limit, s)
    ensures WithinLimit(limit, Next(limit, s, e))
  {
    if e.Exec? && Admits(limit, s, e.member, e.stamp) {
      var member, stamp := e.member, e.stamp;
      var admitted := s.admitted[member := stamp];
      forall now: Time
        ensures |AdmittedIn(admitted, now)| <= limit
      {
        if stamp <= now && Live(HalfOpen, stamp, now) {
          WindowIsInSet(lag, ahead, limit, s, member, stamp, now);
          SubsetSize(AdmittedIn(admitted, now), AfterAdd(s, member, stamp).Keys);
        } else {
          assert AdmittedIn(admitted, now) == AdmittedIn(s.admitted, now);
        }
      }
    }
  }

  lemma {:induction false} RunKeepsLimit(lag: Time, ahead: Time, limit: int, s: State, run: seq<Event>)
    requires limit > 0 && Skews(lag, ahead) && Inv(lag, ahead, s) && WithinLimit(limit, s)
    requires IsRun(lag, ahead, limit, s, run)
    ensures WithinLimit(limit, After(limit, s, run)) && Inv(lag, ahead, After(limit, s, run))
    decreases |run|
  {
    if run == [] {
    } else {
      NextKeepsInv(lag, ahead, limit, s, run[0]);
      NextKeepsLimit(lag, ahead, limit, s, run[0]);
      RunKeepsLimit(lag, ahead, limit, Next(limit, s, run[0]), run[1..]);
    }
  }

  /** The denied calls whose member is still in the set and live at `stamp`. */
  function LeftoversIn(s: State, stamp: Time): (ms: set<Member>) {
    set m | m in s.pending && m in s.zset && s.pending[m] <= stamp && Live(HalfOpen, s.pending[m], stamp)
  }

  /** When the key expires, every admitted call is too old for any transaction still to come. */
  lemma ExpiryDropsOnlyTheDead(lag: Time, ahead: Time, s: State, m: Member)
    requires Skews(lag, ahead) && Inv(lag, ahead, s) && Enabled(lag, ahead, s, KeyExpires) && m in s.admitted
    ensures forall stamp :: Horizon(lag, s) <= stamp ==> !Live(HalfOpen, s.admitted[m], stamp)
  {
    assert s.admitted[m] <= s.lastStamp <= s.clock - lag - WINDOW;
  }

  /**
   A denial is never spurious: admitted calls and denied calls not removed yet had filled the
   window; and a full window is always a denial.
   */
  lemma DenialMeansFull(lag: Time, ahead: Time, limit: int, s: State, member: Member, stamp: Time)
    requires Inv(lag, ahead, s) && Enabled(lag, ahead, s, Exec(member, stamp))
    ensures !Admits(limit, s, member, stamp) <==>
      |AdmittedIn(s.admitted, stamp)| + |LeftoversIn(s, stamp)| >= limit
  {
    var a, p, kept := AdmittedIn(s.admitted, stamp), LeftoversIn(s, stamp), PurgeSet(s.zset, stamp);
    CountedAreAdmittedOrPending(lag, ahead, s, member, stamp);
    assert |kept.Keys| == |a| + |p|;
    assert AfterAdd(s, member, stamp).Keys == kept.Keys + {member};
  }

  lemma CountedAreAdmittedOrPending(lag: Time, ahead: Time, s: State, member: Member, stamp: Time)
    requires Inv(lag, ahead, s) && Enabled(lag, ahead, s, Exec(member, stamp))
    ensures PurgeSet(s.zset, stamp).Keys == AdmittedIn(s.admitted, stamp) + LeftoversIn(s, stamp)
    ensures AdmittedIn(s.admitted, stamp) !! LeftoversIn(s, stamp)
  {
    forall m | m in AdmittedIn(s.admitted, stamp)
      ensures m in PurgeSet(s.zset, stamp)
    {
      assert Live(HalfOpen, s.admitted[m], Horizon(lag, s));
    }
  }

  // ---------- How much clock skew the expiry tolerates ----------

  function FilledSet(k: nat, stamp: Time): (zset: map<Member, Time>)
    ensures |zset| == k
    ensures forall m: Member :: m in zset <==> m < k
    ensures forall m :: m in zset ==> zset[m] == stamp
  {
    if k == 0 then map[]
    else
      var zset := FilledSet(k - 1, stamp);
      assert zset[k - 1 := stamp].Keys == zset.Keys + {k - 1};
      zset[k - 1 := stamp]
  }

  /** `k` admissions at one Redis time, all with the timestamp `stamp`. */
  function Filled(k: nat, clock: Time, stamp: Time): (s: State) {
    var calls := FilledSet(k, stamp);
    State(calls, if k == 0 then 0.0 else clock + KEY_TTL, clock, if k == 0 then 0.0 else stamp, calls, map[])
  }

  lemma FillStep(lag: Time, ahead: Time, limit: int, k: nat, clock: Time)
    requires 0.0 <= lag && 0.0 <= ahead && 0.0 <= clock && k < limit
    ensures Enabled(lag, ahead, Filled(k, clock, clock + ahead), Exec(k, clock + ahead))
    ensures Next(limit, Filled(k, clock, clock + ahead), Exec(k, clock + ahead)) == Filled(k + 1, clock, clock + ahead)
  {
    assert PurgeSet(FilledSet(k, clock + ahead), clock + ahead) == FilledSet(k, clock + ahead);
  }

  lemma {:induction false} FillWindow(lag: Time, ahead: Time, limit: int, k: nat, clock: Time) returns (run: seq<Event>)
    requires 0.0 <= lag && 0.0 <= ahead && 0.0 <= clock && k <= limit
    ensures IsRun(lag, ahead, limit, Start(), run)
    ensures After(limit, Start(), run) == Filled(k, clock, clock + ahead)
  {
    var e := if k == 0 then Tick(clock) else Exec(k - 1, clock + ahead);
    run := [];
    if k == 0 {
    } else {
      run := FillWindow(lag, ahead, limit, k - 1, clock);
      FillStep(lag, ahead, limit, k - 1, clock);
    }
    Runs.RunSnoc(InOrder(lag, ahead), NextOf(limit), Start(), run, e);
    run := run + [e];
  }

  /** A pause of 61 seconds, the key expires, and a call with a timestamp as early as the skew allows. */
  lemma LateCall(lag: Time, ahead: Time, limit: int, run: seq<Event>, s: State, late: Time) returns (longer: seq<Event>)
    requires IsRun(lag, ahead, limit, Start(), run) && After(limit, Start(), run) == s
    requires s.zset != map[] && s.expireAt <= s.clock + KEY_TTL && 0.0 <= s.lastStamp <= late
    requires limit > 0 && limit !in s.admitted && limit !in s.pending
    requires s.clock + KEY_TTL - lag <= late <= s.clock + KEY_TTL + ahead
    ensures IsRun(lag, ahead, limit, Start(), longer)
    ensures After(limit, Start(), longer).admitted == s.admitted[limit := late]
  {
    var empty := s.(clock := s.clock + KEY_TTL, zset := map[]);
    assert AfterAdd(empty, limit, late) == map[limit := late];
    Runs.RunSnoc(InOrder(lag, ahead), NextOf(limit), Start(), run, Tick(s.clock + KEY_TTL));
    longer := run + [Tick(s.clock + KEY_TTL)];
    Runs.RunSnoc(InOrder(lag, ahead), NextOf(limit), Start(), longer, KeyExpires);
    longer := longer + [KeyExpires];
    Runs.RunSnoc(InOrder(lag, ahead), NextOf(limit), Start(), longer, Exec(limit, late));
    longer := longer + [Exec(limit, late)];
  }

  /**
   With more skew than the expiry's one second of slack, the key can expire while its entries are
   still live for a timestamp read earlier: `limit` calls, a pause of 61 seconds, and one more.
   */
  lemma TooMuchSkewBreaksLimit(lag: Time, ahead: Time, limit: int) returns (run: seq<Event>)
    requires limit > 0 && 0.0 <= lag && 0.0 <= ahead && lag + ahead > 1.0
    ensures IsRun(lag, ahead, limit, Start(), run)
    ensures !WithinLimit(limit, After(limit, Start(), run))
  {
    run := FillWindow(lag, ahead, limit, limit, 100.0);
    var s, late := Filled(limit, 100.0, 100.0 + ahead), Max(100.0 + ahead, 100.0 + KEY_TTL - lag);
    assert 0 in s.zset;
    run := LateCall(lag, ahead, limit, run, s, late);
    assert AdmittedIn(s.admitted[limit := late], late) == s.admitted.Keys + {limit};
    assert |AdmittedIn(s.admitted[limit := late], late)| > limit;
  }

  /**
   As long as transactions reach Redis in the order of their timestamps: in every interleaving of
   transactions, removals, expiries and crashes the limiter admits at most `limit` calls in any
   half-open 60 seconds, exactly when timestamps and the Redis clock differ by no more than the
   second by which the expiry outlasts the window. `RedisReordering` says what is left without the order.
   */
  lemma LimitHoldsExactlyWithinSlack(lag: Time, ahead: Time, limit: int)
    requires limit > 0 && 0.0 <= lag && 0.0 <= ahead
    ensures (forall run :: IsRun(lag, ahead, limit, Start(), run) ==> WithinLimit(limit, After(limit, Start(), run)))
       <==> lag + ahead <= 1.0
  {
    if lag + ahead <= 1.0 {
      assert forall now :: AdmittedIn(Start().admitted, now) == {};
      forall run | IsRun(lag, ahead, limit, Start(), run)
        ensures WithinLimit(limit, After(limit, Start(), run))
      {
        RunKeepsLimit(lag, ahead, limit, Start(), run);
      }
    } else {
      var run := TooMuchSkewBreaksLimit(lag, ahead, limit);
    }
  }

  // ---------- One call at a time ----------

  /** The key as the next call finds it at `now`: gone if its expiry is due. */
  function Awaited(limit: int, s: State, now: Time): (found: State) {
    var ticked := Next(limit, s, Tick(now));
    if ticked.zset != map[] && ticked.expireAt <= now then Next(limit, ticked, KeyExpires) else ticked
  }

  /** A call that nothing interleaves with: a denied member is removed at once. */
  function CallAlone(limit: int, s: State, member: Member, now: Time): (r: (State, bool)) {
    if limit <= 0 then (s, true)
    else
      var found := Awaited(limit, s, now);
      var counted := Next(limit, found, Exec(member, now));
      if Admits(limit, found, member, now) then (counted, true)
      else (Next(limit, counted, Remove(member)), false)
  }

  /** The members that a call alone finds live: none once the key has expired. */
  function LiveMembers(zset: map<Member, Time>, expireAt: Time, now: Time): (live: set<Member>) {
    set m | m in zset && now < expireAt && !(0.0 <= zset[m] <= now - 60.0)
  }

  lemma LiveMembersAreKept(limit: int, s: State, now: Time)
    ensures PurgeSet(Awaited(limit, s, now).zset, now).Keys == LiveMembers(s.zset, s.expireAt, now)
    ensures forall m :: m in Awaited(limit, s, now).zset ==> m in s.zset && Awaited(limit, s, now).zset[m] == s.zset[m]
  {
  }

  /** It is let through exactly when fewer than `limit` members are live, and joins them just then. */
  lemma CallAloneMeans(limit: int, s: State, member: Member, now: Time)
    requires limit > 0 && member !in s.zset
    ensures var (t, ok) := CallAlone(limit, s, member, now);
            var live := LiveMembers(s.zset, s.expireAt, now);
            && (ok <==> |live| < limit)
            && t.zset.Keys == (if ok then live + {member} else live)
            && (forall m :: m in t.zset ==> t.zset[m] == if m == member then now else s.zset[m])
            && t.expireAt == now + 61.0
  {
    var found, live := Awaited(limit, s, now), LiveMembers(s.zset, s.expireAt, now);
    LiveMembersAreKept(limit, s, now);
    assert AfterAdd(found, member, now).Keys == live + {member};
    assert |AfterAdd(found, member, now)| == |AfterAdd(found, member, now).Keys| == |live| + 1;
    assert (live + {member}) - {member} == live;
  }

  /** Calls one after the other, the i-th with member `i`. */
  function RunAlone(limit: int, times: seq<Time>): (r: (State, seq<bool>))
    ensures |r.1| == |times|
  {
    if times == [] then (Start(), [])
    else
      var n := |times| - 1;
      var (s, decisions) := RunAlone(limit, times[..n]);
      var (t, ok) := CallAlone(limit, s, n, times[n]);
      (t, decisions + [ok])
  }

  ghost predicate Epoch(times: seq<Time>) {
    Nondecreasing(times) && forall i :: 0 <= i < |times| ==> 0.0 <= times[i]
  }

  function AdmittedCalls(times: seq<Time>, decisions: seq<bool>): (calls: map<Member, Time>)
    requires |times| == |decisions|
    ensures forall m :: m in calls ==> m < |times|
  {
    if times == [] then map[]
    else
      var n := |times| - 1;
      var calls := AdmittedCalls(times[..n], decisions[..n]);
      if decisions[n] then calls[n := times[n]] else calls
  }

  /** The history holds exactly the calls that were admitted. */
  ghost predicate Records(s: State, times: seq<Time>, decisions: seq<bool>)
    requires |times| == |decisions|
  {
    && s.pending == map[]
    && s.admitted == AdmittedCalls(times, decisions)
    && (forall m :: m in s.zset ==> m < |times|)
    && s.clock == s.lastStamp
  }

  lemma {:induction false} RecordsCount(times: seq<Time>, decisions: seq<bool>, now: Time)
    requires |times| == |decisions|
    ensures |AdmittedIn(AdmittedCalls(times, decisions), now)| == CountWindow(HalfOpen, times, decisions, now)
  {
    if times == [] {
    } else {
      var n := |times| - 1;
      RecordsCount(times[..n], decisions[..n], now);
      var before := AdmittedCalls(times[..n], decisions[..n]);
      var last := if decisions[n] && times[n] <= now && Live(HalfOpen, times[n], now) then {n} else {};
      assert AdmittedIn(AdmittedCalls(times, decisions), now) == AdmittedIn(before, now) + last;
    }
  }

  /** Time passing, and the key expiring if it is due, leave the records as they are. */
  lemma WaitKeepsRecords(limit: int, s: State, times: seq<Time>, decisions: seq<bool>, now: Time) returns (found: State)
    requires |times| == |decisions| && Records(s, times, decisions)
    requires Inv(0.0, 0.0, s) && s.clock <= now
    ensures found == Awaited(limit, s, now)
    ensures Inv(0.0, 0.0, found) && Enabled(0.0, 0.0, found, Exec(|times|, now))
    ensures found.pending == map[] && found.admitted == s.admitted && found.clock == now
    ensures forall m :: m in found.zset ==> m < |times|
  {
    found := Next(limit, s, Tick(now));
    NextKeepsInv(0.0, 0.0, limit, s, Tick(now));
    if found.zset != map[] && found.expireAt <= now {
      NextKeepsInv(0.0, 0.0, limit, found, KeyExpires);
      found := Next(limit, found, KeyExpires);
    }
  }

  lemma AdmitsIfRoom(limit: int, found: State, times: seq<Time>, decisions: seq<bool>, now: Time)
    requires |times| == |decisions| && found.admitted == AdmittedCalls(times, decisions) && found.pending == map[]
    requires Inv(0.0, 0.0, found) && Enabled(0.0, 0.0, found, Exec(|times|, now))
    ensures Admits(limit, found, |times|, now) <==> CountWindow(HalfOpen, times, decisions, now) < limit
  {
    DenialMeansFull(0.0, 0.0, limit, found, |times|, now);
    RecordsCount(times, decisions, now);
    assert LeftoversIn(found, now) == {};
  }

  lemma AdmittedSnoc(times: seq<Time>, decisions: seq<bool>, now: Time, ok: bool)
    requires |times| == |decisions|
    ensures AdmittedCalls(times + [now], decisions + [ok])
         == if ok then AdmittedCalls(times, decisions)[|times| := now] else AdmittedCalls(times, decisions)
  {
  }

  /** The transaction, and the removal if it was denied, record the call. */
  lemma ExecRecords(limit: int, found: State, times: seq<Time>, decisions: seq<bool>, now: Time)
    requires |times| == |decisions| && found.admitted == AdmittedCalls(times, decisions) && found.pending == map[]
    requires Inv(0.0, 0.0, found) && Enabled(0.0, 0.0, found, Exec(|times|, now)) && found.clock == now
    requires forall m :: m in found.zset ==> m < |times|
    ensures var ok, counted := Admits(limit, found, |times|, now), Next(limit, found, Exec(|times|, now));
            var t := if ok then counted else Next(limit, counted, Remove(|times|));
            Inv(0.0, 0.0, t) && Records(t, times + [now], decisions + [ok]) && t.clock == now
  {
    var ok, counted := Admits(limit, found, |times|, now), Next(limit, found, Exec(|times|, now));
    NextKeepsInv(0.0, 0.0, limit, found, Exec(|times|, now));
    AdmittedSnoc(times, decisions, now, ok);
    if !ok {
      NextKeepsInv(0.0, 0.0, limit, counted, Remove(|times|));
    }
  }

  lemma CallAloneDecides(limit: int, s: State, times: seq<Time>, decisions: seq<bool>, now: Time)
    requires limit > 0 && |times| == |decisions| && Records(s, times, decisions)
    requires Inv(0.0, 0.0, s) && s.clock <= now
    ensures var (t, ok) := CallAlone(limit, s, |times|, now);
            && Inv(0.0, 0.0, t)
            && (ok <==> CountWindow(HalfOpen, times, decisions, now) < limit)
            && Records(t, times + [now], decisions + [ok])
            && t.clock == now
  {
    var found := WaitKeepsRecords(limit, s, times, decisions, now);
    AdmitsIfRoom(limit, found, times, decisions, now);
    ExecRecords(limit, found, times, decisions, now);
  }

  ghost predicate AgreesWithGreedy(limit: int, times: seq<Time>) {
    var (s, decisions) := RunAlone(limit, times);
    && Records(s, times, decisions)
    && Inv(0.0, 0.0, s)
    && decisions == Greedy(HalfOpen, limit, times)
  }

  lemma CallKeepsAgreement(limit: int, times: seq<Time>, now: Time)
    requires limit > 0 && NotAfter(times, now)
    requires AgreesWithGreedy(limit, times) && RunAlone(limit, times).0.clock <= now
    ensures AgreesWithGreedy(limit, times + [now]) && RunAlone(limit, times + [now]).0.clock == now
  {
    var (s, decisions) := RunAlone(limit, times);
    CallAloneDecides(limit, s, times, decisions, now);
    PurgeCounts(HalfOpen, times, decisions, now);
    assert (times + [now])[..|times|] == times;
  }

  lemma EpochFront(times: seq<Time>, now: Time)
    requires Epoch(times + [now])
    ensures Epoch(times) && NotAfter(times, now) && 0.0 <= now
    ensures times != [] ==> times[|times| - 1] <= now
  {
    var all := times + [now];
    assert forall i :: 0 <= i < |times| ==> all[i] == times[i];
    assert all[|times|] == now;
  }

  lemma {:induction false} RunAloneAgrees(limit: int, times: seq<Time>)
    requires limit > 0 && Epoch(times)
    ensures AgreesWithGreedy(limit, times)
    ensures RunAlone(limit, times).0.clock == if times == [] then 0.0 else times[|times| - 1]
  {
    if times == [] {
    } else {
      var front, now := times[..|times| - 1], times[|times| - 1];
      assert times == front + [now];
      EpochFront(front, now);
      RunAloneAgrees(limit, front);
      CallKeepsAgreement(limit, front, now);
    }
  }

  /** Run one call at a time, the limiter is the reference limiter with the half-open window. */
  lemma RunAloneIsGreedy(limit: int, times: seq<Time>)
    requires limit > 0 && Epoch(times)
    ensures RunAlone(limit, times).1 == Greedy(HalfOpen, limit, times)
  {
    RunAloneAgrees(limit, times);
  }

  /** Replacing the in-memory limiter by this one never costs a client an admission, on any prefix. */
  lemma RedisStaysAheadOfMemory(limit: int, times: seq<Time>, k: nat)
    requires limit > 0 && Epoch(times) && k <= |times|
    ensures Count(RunAlone(limit, times).1[..k]) >= Count(Greedy(Closed, limit, times)[..k])
  {
    RunAloneIsGreedy(limit, times);
    HalfOpenStaysAheadOfClosed(limit, times, k);
  }

  lemma FirstCall(edge: Edge)
    ensures Greedy(edge, 1, [0.0]) == [true] && Chosen([0.0], [true]) == [0.0]
  {
    GreedySnoc(edge, 1, [], 0.0);
    assert [] + [0.0] == [0.0] && [] + [true] == [true];
  }

  lemma SecondCall(edge: Edge)
    ensures Greedy(edge, 1, [0.0, 60.0]) == [true, edge.HalfOpen?]
  {
    FirstCall(edge);
    GreedySnoc(edge, 1, [0.0], 60.0);
    PurgeSnoc(edge, [], 0.0, 60.0);
    assert [0.0] + [60.0] == [0.0, 60.0] && [] + [0.0] == [0.0];
  }

  /** And it may gain one: a second call exactly 60 seconds after the first, with a limit of one. */
  lemma LimitersDifferAtTheEdge()
    ensures RunAlone(1, [0.0, 60.0]).1 == [true, true]
    ensures Greedy(Closed, 1, [0.0, 60.0]) == [true, false]
  {
    RunAloneIsGreedy(1, [0.0, 60.0]);
    SecondCall(HalfOpen);
    SecondCall(Closed);
  }

  /**
   Run one call at a time, the two limiters decide alike exactly when no call hangs on an entry exactly
   60 seconds old.
   */
  lemma LimitersAgreeExactly(limit: int, times: seq<Time>)
    requires limit > 0 && Epoch(times)
    ensures RunAlone(limit, times).1 == Greedy(Closed, limit, times) <==> EdgeNeverDecides(limit, times)
  {
    RunAloneIsGreedy(limit, times);
    EdgesAgreeExactly(limit, times);
  }

  lemma LimitersAgreeOffTheMinute(limit: int, times: seq<Time>)
    requires limit > 0 && Epoch(times)
    requires forall i, j :: 0 <= i < j < |times| ==> times[j] - times[i] != 60.0
    ensures RunAlone(limit, times).1 == Greedy(Closed, limit, times)
  {
    RunAloneIsGreedy(limit, times);
    EdgesAgreeOffTheMinute(limit, times);
  }

  /** The shared key and the commands a replica sends; `model` is the state of the machine above. */
  class RedisSlidingWindowRateLimiter {
    const limit: int
    var zset: map<Member, Time>
    var expireAt: Time
    ghost var model: State

    ghost predicate Valid()
      reads this
    {
      zset == model.zset && expireAt == model.expireAt
    }

    constructor (limitPerMinute: int)
      ensures Valid() && limit == limitPerMinute && model == Start()
    {
      limit, zset, expireAt, model := limitPerMinute, map[], 0.0, Start();
    }

    /** The atomic transaction; `clock` is the Redis time at which it runs. */
    method Transaction(member: Member, stamp: Time, clock: Time) returns (count: nat)
      requires Valid() && clock == model.clock && member !in model.zset
      modifies this
      ensures Valid() && model == Next(limit, old(model), Exec(member, stamp))
      ensures count == |zset| && (count <= limit <==> Admits(limit, old(model), member, stamp))
      ensures forall m :: m in zset <==>
        m == member || (m in old(zset) && !(0.0 <= old(zset)[m] <= stamp - 60.0))
      ensures forall m :: m in zset ==> zset[m] == if m == member then stamp else old(zset)[m]
      ensures expireAt == clock + 61.0
    {
      zset := PurgeSet(zset, stamp);
      zset := zset[member := stamp];
      count := |zset|;
      expireAt := clock + KEY_TTL;
      model := Next(limit, model, Exec(member, stamp));
    }

    /** ZREM of a denied member. */
    method RemoveMember(member: Member)
      requires Valid()
      modifies this
      ensures Valid() && model == Next(limit, old(model), Remove(member))
      ensures zset == old(zset) - {member} && expireAt == old(expireAt)
    {
      zset := zset - {member};
      model := Next(limit, model, Remove(member));
    }

    /** A call that no other replica interleaves with, at Redis time `now`. */
    method Allow(member: Member, now: Time) returns (ok: bool)
      requires Valid() && member !in model.zset
      modifies this
      ensures Valid() && (model, ok) == CallAlone(limit, old(model), member, now)
      ensures limit <= 0 ==> ok && model == old(model)
      ensures limit > 0 ==>
        var live := set m | m in old(zset) && now < old(expireAt) && !(0.0 <= old(zset)[m] <= now - 60.0);
        && (ok <==> |live| < limit)
        && zset.Keys == (if ok then live + {member} else live)
        && (forall m :: m in zset ==> zset[m] == if m == member then now else old(zset)[m])
        && expireAt == now + 61.0
    {
      if limit <= 0 {
        return true;
      }
      CallAloneMeans(limit, model, member, now);
      model := Awaited(limit, model, now);
      if expireAt <= now {
        zset := map[];
      }
      var count := Transaction(member, now, now);
      if count > limit {
        RemoveMember(member);
        return false;
      }
      return true;
    }
  }
}
