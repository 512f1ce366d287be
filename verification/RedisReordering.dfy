/**
 The Redis rate limiter when transactions may reach Redis in another order than their timestamps:
 a replica reads its clock, is overtaken by another, and only then sends its transaction. A purge by
 the later timestamp drops entries that the earlier one would still have counted, so the window kept
 is shorter than 60 seconds by the whole skew.
 */
module RedisReordering {
  import opened SlidingWindow
  import opened SetFacts
  import opened RedisSlidingWindow
  import Runs

  function InAnyOrder(lag: Time, ahead: Time): (possible: (State, Event) -> bool) {
    (s, e) => Possible(lag, ahead, s, e)
  }

  predicate IsReorderedRun(lag: Time, ahead: Time, limit: int, s: State, run: seq<Event>) {
    Runs.IsRun(InAnyOrder(lag, ahead), NextOf(limit), s, run)
  }

  /** The admitted calls in the half-open `width` seconds ending at `now`. */
  function AdmittedWithin(admitted: map<Member, Time>, width: Time, now: Time): (ms: set<Member>) {
    set m | m in admitted && now - width < admitted[m] <= now
  }

  ghost predicate Keeps(limit: int, width: Time, s: State) {
    forall now: Time :: |AdmittedWithin(s.admitted, width, now)| <= limit
  }

  /** An entry is dropped only when it is older than 60 seconds for the latest timestamp there can be. */
  ghost predicate Inv(ahead: Time, s: State) {
    && s.admitted.Keys !! s.pending.Keys
    && (forall m :: m in s.admitted ==> m in s.zset || s.admitted[m] <= s.clock + ahead - WINDOW)
    && (forall m :: m in s.zset && m in s.admitted ==> s.zset[m] == s.admitted[m])
    && (forall m :: m in s.zset ==> s.zset[m] <= s.expireAt - KEY_TTL + ahead)
    && (s.zset != map[] ==> s.expireAt <= s.clock + KEY_TTL)
  }

  lemma ExecKeepsInv(lag: Time, ahead: Time, limit: int, s: State, member: Member, stamp: Time)
    requires Inv(ahead, s) && Possible(lag, ahead, s, Exec(member, stamp))
    ensures Inv(ahead, Next(limit, s, Exec(member, stamp)))
  {
    var t := Next(limit, s, Exec(member, stamp));
    assert t.zset == AfterAdd(s, member, stamp);
    forall m | m in t.zset && m != member
      ensures m in s.zset && t.zset[m] == s.zset[m] <= t.expireAt - KEY_TTL + ahead
    {
    }
  }

  lemma NextKeepsInv(lag: Time, ahead: Time, limit: int, s: State, e: Event)
    requires Inv(ahead, s) && Possible(lag, ahead, s, e)
    ensures Inv(ahead, Next(limit, s, e))
  {
    if e.Exec? {
      ExecKeepsInv(lag, ahead, limit, s, e.member, e.stamp);
    }
  }

  /** A call counts every admitted call that is in one narrow window with it. */
  lemma NarrowWindowIsCounted(lag: Time, ahead: Time, s: State, member: Member, stamp: Time, width: Time, now: Time)
    requires 0.0 <= lag && 0.0 <= ahead && width <= WINDOW - (lag + ahead)
    requires Inv(ahead, s) && Possible(lag, ahead, s, Exec(member, stamp))
    requires now - width < stamp <= now
    ensures AdmittedWithin(s.admitted[member := stamp], width, now) <= AfterAdd(s, member, stamp).Keys
  {
    forall m | m in AdmittedWithin(s.admitted[member := stamp], width, now) && m != member
      ensures m in AfterAdd(s, member, stamp)
    {
      assert s.admitted[m] > s.clock + ahead - WINDOW;
    }
  }

  lemma NextKeepsLimit(lag: Time, ahead: Time, limit: int, width: Time, s: State, e: Event)
    requires 0.0 <= lag && 0.0 <= ahead && width <= WINDOW - (lag + ahead)
    requires Inv(ahead, s) && Possible(lag, ahead, s, e) && Keeps(limit, width, s)
    ensures Keeps(limit, width, Next(limit, s, e))
  {
    if e.Exec? && Admits(limit, s, e.member, e.stamp) {
      var admitted := s.admitted[e.member := e.stamp];
      forall now: Time
        ensures |AdmittedWithin(admitted, width, now)| <= limit
      {
        if now - width < e.stamp <= now {
          NarrowWindowIsCounted(lag, ahead, s, e.member, e.stamp, width, now);
          SubsetSize(AdmittedWithin(admitted, width, now), AfterAdd(s, e.member, e.stamp).Keys);
        } else {
          assert AdmittedWithin(admitted, width, now) == AdmittedWithin(s.admitted, width, now);
        }
      }
    }
  }

  lemma {:induction false} RunKeepsNarrowLimit(lag: Time, ahead: Time, limit: int, width: Time, s: State,
                                               run: seq<Event>)
    requires 0.0 <= lag && 0.0 <= ahead && width <= WINDOW - (lag + ahead)
    requires Inv(ahead, s) && Keeps(limit, width, s) && IsReorderedRun(lag, ahead, limit, s, run)
    ensures Keeps(limit, width, After(limit, s, run))
    decreases |run|
  {
    if run == [] {
    } else {
      NextKeepsInv(lag, ahead, limit, s, run[0]);
      NextKeepsLimit(lag, ahead, limit, width, s, run[0]);
      RunKeepsNarrowLimit(lag, ahead, limit, width, Next(limit, s, run[0]), run[1..]);
    }
  }

  // ---------- No wider window is kept ----------

  lemma {:induction false} OrderedRunsCount(lag: Time, ahead: Time, limit: int, s: State, run: seq<Event>)
    requires IsRun(lag, ahead, limit, s, run)
    ensures IsReorderedRun(lag, ahead, limit, s, run)
    decreases |run|
  {
    if run == [] {
    } else {
      OrderedRunsCount(lag, ahead, limit, Next(limit, s, run[0]), run[1..]);
    }
  }

  lemma Extend(lag: Time, ahead: Time, limit: int, run: seq<Event>, e: Event) returns (longer: seq<Event>)
    requires IsReorderedRun(lag, ahead, limit, Start(), run) && Possible(lag, ahead, After(limit, Start(), run), e)
    ensures IsReorderedRun(lag, ahead, limit, Start(), longer)
    ensures After(limit, Start(), longer) == Next(limit, After(limit, Start(), run), e)
  {
    Runs.RunSnoc(InAnyOrder(lag, ahead), NextOf(limit), Start(), run, e);
    longer := run + [e];
  }

  /** The timestamp of the overtaken call: as early as the skew allows, but not before the first calls. */
  function Overtaken(lag: Time, ahead: Time, clock: Time): (stamp: Time) {
    Max(clock - lag, clock + ahead - WINDOW)
  }

  /** `limit` calls, stamped as late as possible, and 60 seconds later. */
  lemma FillAndWait(lag: Time, ahead: Time, limit: int) returns (run: seq<Event>, s: State)
    requires limit > 0 && 0.0 <= lag && 0.0 <= ahead
    ensures IsReorderedRun(lag, ahead, limit, Start(), run) && After(limit, Start(), run) == s
    ensures s == Filled(limit, 100.0, 100.0 + ahead).(clock := 160.0)
  {
    run := FillWindow(lag, ahead, limit, limit, 100.0);
    OrderedRunsCount(lag, ahead, limit, Start(), run);
    run := Extend(lag, ahead, limit, run, Tick(160.0));
    s := After(limit, Start(), run);
  }

  /** The last call is admitted once the purge by the overtaking call has emptied the set, or all but emptied it. */
  lemma LastIsAdmitted(limit: int, s: State, member: Member, stamp: Time)
    requires member !in s.zset && |s.zset| < limit
    ensures Admits(limit, s, member, stamp)
    ensures Next(limit, s, Exec(member, stamp)).admitted == s.admitted[member := stamp]
  {
    var kept := PurgeSet(s.zset, stamp);
    assert kept.Keys <= s.zset.Keys;
    SubsetSize(kept.Keys, s.zset.Keys);
    assert AfterAdd(s, member, stamp).Keys == kept.Keys + {member};
  }

  lemma OvertakingPurges(limit: int, ahead: Time, s: State, member: Member)
    requires limit > 1 && 0.0 <= ahead && s == Filled(limit, 100.0, 100.0 + ahead).(clock := 160.0)
    requires member == limit
    ensures var t := Next(limit, s, Exec(member, 160.0 + ahead));
            t.zset == map[member := 160.0 + ahead] && t.admitted == s.admitted[member := 160.0 + ahead]
            && t.pending == map[] && t.clock == 160.0
  {
    assert AfterAdd(s, member, 160.0 + ahead) == map[member := 160.0 + ahead];
  }

  /** The first `limit` calls were admitted with one timestamp, and `last` with the overtaken one. */
  ghost predicate Crowded(lag: Time, ahead: Time, limit: int, admitted: map<Member, Time>, last: Member) {
    && (forall m: Member :: m < limit ==> m in admitted && admitted[m] == 100.0 + ahead)
    && last >= limit && last in admitted && admitted[last] == Overtaken(lag, ahead, 160.0)
  }

  /** With a limit of at least 2: an overtaking call purges the first ones, and the overtaken one finds room. */
  lemma CrowdPlural(lag: Time, ahead: Time, limit: int) returns (run: seq<Event>)
    requires limit > 1 && 0.0 <= lag && 0.0 <= ahead
    ensures IsReorderedRun(lag, ahead, limit, Start(), run)
    ensures Crowded(lag, ahead, limit, After(limit, Start(), run).admitted, limit + 1)
  {
    var s;
    run, s := FillAndWait(lag, ahead, limit);
    OvertakingPurges(limit, ahead, s, limit);
    run := Extend(lag, ahead, limit, run, Exec(limit, 160.0 + ahead));
    s := After(limit, Start(), run);
    LastIsAdmitted(limit, s, limit + 1, Overtaken(lag, ahead, 160.0));
    run := Extend(lag, ahead, limit, run, Exec(limit + 1, Overtaken(lag, ahead, 160.0)));
  }

  /** A state of a limiter of one call a window: call 0 admitted, and some denied calls not removed yet. */
  ghost predicate OnlyFirst(ahead: Time, s: State, pending: set<Member>) {
    && s.admitted == map[0 := 100.0 + ahead] && s.clock == 160.0
    && s.pending.Keys == pending && s.zset.Keys <= {0} + pending
  }

  /** Two entries are too many for a limit of one. */
  lemma DeniedBesides(s: State, member: Member, stamp: Time, other: Member, otherStamp: Time)
    requires member != other && PurgeSet(s.zset, stamp) == map[other := otherStamp]
    ensures !Admits(1, s, member, stamp)
    ensures Next(1, s, Exec(member, stamp)).zset == map[other := otherStamp, member := stamp]
  {
    assert AfterAdd(s, member, stamp).Keys == {other, member};
  }

  /** A call between the overtaken and the overtaking one is denied, because call 0 is live for it. */
  lemma DeniedBetween(lag: Time, ahead: Time, s: State, between: Time)
    requires 0.0 <= lag && 0.0 <= ahead && s == Filled(1, 100.0, 100.0 + ahead).(clock := 160.0)
    requires 100.0 + ahead < between < 160.0 + ahead
    ensures var t := Next(1, s, Exec(1, between));
            OnlyFirst(ahead, t, {1}) && t.zset == map[0 := 100.0 + ahead, 1 := between]
  {
    assert FilledSet(1, 100.0 + ahead) == map[0 := 100.0 + ahead];
    DeniedBesides(s, 1, between, 0, 100.0 + ahead);
  }

  /** So is the overtaking call, because of that denied one; but it has purged call 0. */
  lemma DeniedByLeftover(ahead: Time, s: State, between: Time)
    requires 0.0 <= ahead && 100.0 + ahead < between < 160.0 + ahead
    requires OnlyFirst(ahead, s, {1}) && s.zset == map[0 := 100.0 + ahead, 1 := between]
    ensures var t := Next(1, s, Exec(2, 160.0 + ahead));
            OnlyFirst(ahead, t, {1, 2}) && t.zset.Keys == {1, 2}
  {
    DeniedBesides(s, 2, 160.0 + ahead, 1, between);
  }

  /** The run up to there. */
  lemma DenyTwo(lag: Time, ahead: Time) returns (run: seq<Event>)
    requires 0.0 <= lag && 0.0 <= ahead && lag + ahead > 0.0
    ensures IsReorderedRun(lag, ahead, 1, Start(), run)
    ensures OnlyFirst(ahead, After(1, Start(), run), {1, 2}) && After(1, Start(), run).zset.Keys == {1, 2}
  {
    var between, s := (Overtaken(lag, ahead, 160.0) + 160.0 + ahead) / 2.0, Start();
    run, s := FillAndWait(lag, ahead, 1);
    DeniedBetween(lag, ahead, s, between);
    run := Extend(lag, ahead, 1, run, Exec(1, between));
    DeniedByLeftover(ahead, After(1, Start(), run), between);
    run := Extend(lag, ahead, 1, run, Exec(2, 160.0 + ahead));
  }

  lemma RemoveBoth(s: State)
    requires s.pending.Keys == {1, 2} && s.zset.Keys == {1, 2}
    ensures 2 in Next(1, s, Remove(1)).pending
    ensures Next(1, Next(1, s, Remove(1)), Remove(2)) == s.(zset := map[], pending := map[])
  {
    var t := Next(1, Next(1, s, Remove(1)), Remove(2));
    assert t.zset.Keys == {} && t.pending.Keys == {};
  }

  lemma DenyAndRemoveTwo(lag: Time, ahead: Time) returns (run: seq<Event>)
    requires 0.0 <= lag && 0.0 <= ahead && lag + ahead > 0.0
    ensures IsReorderedRun(lag, ahead, 1, Start(), run)
    ensures var s := After(1, Start(), run);
            s.zset == map[] && s.pending == map[] && s.admitted == map[0 := 100.0 + ahead] && s.clock == 160.0
  {
    run := DenyTwo(lag, ahead);
    RemoveBoth(After(1, Start(), run));
    run := Extend(lag, ahead, 1, run, Remove(1));
    run := Extend(lag, ahead, 1, run, Remove(2));
  }

  /** With a limit of 1: once both denied calls are removed there is room. */
  lemma CrowdSingle(lag: Time, ahead: Time) returns (run: seq<Event>)
    requires 0.0 <= lag && 0.0 <= ahead && lag + ahead > 0.0
    ensures IsReorderedRun(lag, ahead, 1, Start(), run)
    ensures Crowded(lag, ahead, 1, After(1, Start(), run).admitted, 3)
  {
    run := DenyAndRemoveTwo(lag, ahead);
    var s, last := After(1, Start(), run), Overtaken(lag, ahead, 160.0);
    LastIsAdmitted(1, s, 3, last);
    run := Extend(lag, ahead, 1, run, Exec(3, last));
  }

  lemma {:induction false} FirstMembers(limit: nat) returns (ms: set<Member>)
    ensures |ms| == limit && forall m: Member :: m in ms <==> m < limit
  {
    ms := FilledSet(limit, 0.0).Keys;
  }

  lemma CrowdBreaksLimit(lag: Time, ahead: Time, limit: int, width: Time, s: State, last: Member)
    requires limit > 0 && Crowded(lag, ahead, limit, s.admitted, last)
    requires 0.0 < width && lag + ahead > WINDOW - width
    ensures !Keeps(limit, width, s)
  {
    var now := Overtaken(lag, ahead, 160.0);
    var firsts := FirstMembers(limit);
    assert firsts + {last} <= AdmittedWithin(s.admitted, width, now);
    SubsetSize(firsts + {last}, AdmittedWithin(s.admitted, width, now));
  }

  /** Any skew lets some run put more than `limit` admitted calls into a window that it shortens below `width`. */
  lemma SkewShortensWindow(lag: Time, ahead: Time, limit: int, width: Time) returns (run: seq<Event>)
    requires limit > 0 && 0.0 <= lag && 0.0 <= ahead && 0.0 < width <= 60.0
    requires lag + ahead > 60.0 - width
    ensures IsReorderedRun(lag, ahead, limit, Start(), run)
    ensures !Keeps(limit, width, After(limit, Start(), run))
  {
    if limit == 1 {
      run := CrowdSingle(lag, ahead);
      CrowdBreaksLimit(lag, ahead, limit, width, After(limit, Start(), run), 3);
    } else {
      run := CrowdPlural(lag, ahead, limit);
      CrowdBreaksLimit(lag, ahead, limit, width, After(limit, Start(), run), limit + 1);
    }
  }

  /**
   In every interleaving, whatever the order in which transactions arrive, at most `limit` admitted
   calls fall in any half-open `width` seconds exactly when the skew leaves that much of the 60.
   */
  lemma WindowKeptIsExact(lag: Time, ahead: Time, limit: int, width: Time)
    requires limit > 0 && 0.0 <= lag && 0.0 <= ahead && 0.0 < width <= 60.0
    ensures (forall run :: IsReorderedRun(lag, ahead, limit, Start(), run) ==>
        Keeps(limit, width, After(limit, Start(), run)))
       <==> width <= 60.0 - (lag + ahead)
  {
    if width <= 60.0 - (lag + ahead) {
      assert forall now :: AdmittedWithin(Start().admitted, width, now) == {};
      forall run | IsReorderedRun(lag, ahead, limit, Start(), run)
        ensures Keeps(limit, width, After(limit, Start(), run))
      {
        RunKeepsNarrowLimit(lag, ahead, limit, width, Start(), run);
      }
    } else {
      var run := SkewShortensWindow(lag, ahead, limit, width);
    }
  }

  /** The whole 60 seconds are kept, in any order of arrival, exactly when there is no skew at all. */
  lemma FullWindowNeedsNoSkew(lag: Time, ahead: Time, limit: int)
    requires limit > 0 && 0.0 <= lag && 0.0 <= ahead
    ensures (forall run :: IsReorderedRun(lag, ahead, limit, Start(), run) ==>
        WithinLimit(limit, After(limit, Start(), run)))
       <==> lag + ahead == 0.0
  {
    WindowKeptIsExact(lag, ahead, limit, WINDOW);
    forall s: State
      ensures Keeps(limit, WINDOW, s) <==> WithinLimit(limit, s)
    {
      SameWindow(limit, s);
    }
  }

  lemma SameWindow(limit: int, s: State)
    ensures Keeps(limit, WINDOW, s) <==> WithinLimit(limit, s)
  {
    forall now: Time
      ensures AdmittedWithin(s.admitted, WINDOW, now) == AdmittedIn(s.admitted, now)
    {
    }
    if Keeps(limit, WINDOW, s) {
      assert forall now: Time :: |AdmittedIn(s.admitted, now)| == |AdmittedWithin(s.admitted, WINDOW, now)|;
    }
  }
}
