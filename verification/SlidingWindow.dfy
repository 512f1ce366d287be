/**
 The theory of one sliding window of 60 seconds, shared by both rate limiters.

 A limiter looks at the calls it has admitted so far and admits the next one when fewer than
 `limit` of them are still live. The two limiters differ in one point only: the in-memory one
 keeps an entry that is exactly 60 seconds old, the Redis one has dropped it.
 */
module SlidingWindow {

  type Time = real

  const WINDOW: Time := 60.0

  /** Whether the far edge of the window belongs to it. */
  datatype Edge = Closed | HalfOpen

  predicate Live(edge: Edge, stamp: Time, now: Time) {
    match edge
    case Closed => stamp >= now - WINDOW
    case HalfOpen => stamp > now - WINDOW
  }

  ghost predicate Nondecreasing(times: seq<Time>) {
    forall i, j :: 0 <= i < j < |times| ==> times[i] <= times[j]
  }

  ghost predicate NotAfter(times: seq<Time>, now: Time) {
    forall i :: 0 <= i < |times| ==> times[i] <= now
  }

  /** The entries still live at `now`, in order. */
  function Purge(edge: Edge, hits: seq<Time>, now: Time): (kept: seq<Time>) {
    if hits == [] then []
    else
      var kept := Purge(edge, hits[..|hits| - 1], now);
      if Live(edge, hits[|hits| - 1], now) then kept + [hits[|hits| - 1]] else kept
  }

  /** An entry is kept for 60 seconds: up to and including the last moment in memory, up to it in Redis. */
  lemma {:induction false} PurgeKeepsTheLive(hits: seq<Time>, now: Time, t: Time)
    ensures multiset(Purge(Closed, hits, now))[t] == if now - t <= 60.0 then multiset(hits)[t] else 0
    ensures multiset(Purge(HalfOpen, hits, now))[t] == if now - t < 60.0 then multiset(hits)[t] else 0
  {
    if hits == [] {
    } else {
      PurgeKeepsTheLive(hits[..|hits| - 1], now, t);
      assert hits == hits[..|hits| - 1] + [hits[|hits| - 1]];
    }
  }

  /** The times of the calls that `chosen` marks. */
  function Chosen(times: seq<Time>, chosen: seq<bool>): (picked: seq<Time>)
    requires |times| == |chosen|
  {
    if times == [] then []
    else
      var n := |times| - 1;
      var picked := Chosen(times[..n], chosen[..n]);
      if chosen[n] then picked + [times[n]] else picked
  }

  /** How many calls `chosen` marks. */
  function Count(chosen: seq<bool>): (n: nat) {
    if chosen == [] then 0
    else Count(chosen[..|chosen| - 1]) + if chosen[|chosen| - 1] then 1 else 0
  }

  /** How many chosen calls lie in the 60 seconds ending at `now`. */
  function CountWindow(edge: Edge, times: seq<Time>, chosen: seq<bool>, now: Time): (n: nat)
    requires |times| == |chosen|
  {
    if times == [] then 0
    else
      var k := |times| - 1;
      CountWindow(edge, times[..k], chosen[..k], now)
      + if chosen[k] && times[k] <= now && Live(edge, times[k], now) then 1 else 0
  }

  /** No window, wherever it ends, holds more than `limit` chosen calls. */
  ghost predicate Feasible(edge: Edge, limit: int, times: seq<Time>, chosen: seq<bool>)
    requires |times| == |chosen|
  {
    forall now: Time :: CountWindow(edge, times, chosen, now) <= limit
  }

  /** The reference limiter: it never forgets an admission and looks at its whole log. */
  function Greedy(edge: Edge, limit: int, times: seq<Time>): (admitted: seq<bool>)
    ensures |admitted| == |times|
  {
    if times == [] then []
    else
      var n := |times| - 1;
      var before := Greedy(edge, limit, times[..n]);
      before + [limit <= 0 || |Purge(edge, Chosen(times[..n], before), times[n])| < limit]
  }

  // ---------- Purging ----------

  lemma {:induction false} PurgeSnoc(edge: Edge, hits: seq<Time>, stamp: Time, now: Time)
    ensures Purge(edge, hits + [stamp], now)
         == Purge(edge, hits, now) + if Live(edge, stamp, now) then [stamp] else []
  {
  }

  /** Purging at an earlier time first changes nothing later: what it dropped is dead for good. */
  lemma {:induction false} PurgeTwice(edge: Edge, hits: seq<Time>, earlier: Time, now: Time)
    requires earlier <= now
    ensures Purge(edge, Purge(edge, hits, earlier), now) == Purge(edge, hits, now)
  {
    if hits == [] {
    } else {
      var front, last := hits[..|hits| - 1], hits[|hits| - 1];
      PurgeTwice(edge, front, earlier, now);
      PurgeSnoc(edge, Purge(edge, front, earlier), last, now);
    }
  }

  lemma {:induction false} PurgeShrinks(edge: Edge, hits: seq<Time>, now: Time)
    ensures |Purge(edge, hits, now)| <= |hits|
  {
    if hits == [] {
    } else {
      PurgeShrinks(edge, hits[..|hits| - 1], now);
    }
  }

  /** The length of the purged log is the number of admissions in the window. */
  lemma {:induction false} PurgeCounts(edge: Edge, times: seq<Time>, chosen: seq<bool>, now: Time)
    requires |times| == |chosen| && NotAfter(times, now)
    ensures |Purge(edge, Chosen(times, chosen), now)| == CountWindow(edge, times, chosen, now)
  {
    if times == [] {
    } else {
      var n := |times| - 1;
      PurgeCounts(edge, times[..n], chosen[..n], now);
      PurgeSnoc(edge, Chosen(times[..n], chosen[..n]), times[n], now);
    }
  }

  lemma {:induction false} GreedySnoc(edge: Edge, limit: int, times: seq<Time>, now: Time)
    ensures Greedy(edge, limit, times + [now])
         == Greedy(edge, limit, times)
          + [limit <= 0 || |Purge(edge, Chosen(times, Greedy(edge, limit, times)), now)| < limit]
    ensures Chosen(times + [now], Greedy(edge, limit, times + [now]))
         == Chosen(times, Greedy(edge, limit, times))
          + if Greedy(edge, limit, times + [now])[|times|] then [now] else []
  {
  }

  // ---------- Prefixes ----------

  lemma {:induction false} GreedyPrefix(edge: Edge, limit: int, times: seq<Time>, k: nat)
    requires k <= |times|
    ensures Greedy(edge, limit, times)[..k] == Greedy(edge, limit, times[..k])
  {
    if k == |times| {
      assert times[..k] == times;
    } else {
      GreedyPrefix(edge, limit, times[..|times| - 1], k);
      assert times[..|times| - 1][..k] == times[..k];
    }
  }

  lemma {:induction false} CountWindowPrefix(edge: Edge, times: seq<Time>, chosen: seq<bool>, now: Time, k: nat)
    requires |times| == |chosen| && k <= |times|
    ensures CountWindow(edge, times[..k], chosen[..k], now) <= CountWindow(edge, times, chosen, now)
  {
    if k == |times| {
      assert times[..k] == times && chosen[..k] == chosen;
    } else {
      var n := |times| - 1;
      CountWindowPrefix(edge, times[..n], chosen[..n], now, k);
      assert times[..n][..k] == times[..k] && chosen[..n][..k] == chosen[..k];
    }
  }

  lemma FeasiblePrefix(edge: Edge, limit: int, times: seq<Time>, chosen: seq<bool>, k: nat)
    requires |times| == |chosen| && k <= |times| && Feasible(edge, limit, times, chosen)
    ensures Feasible(edge, limit, times[..k], chosen[..k])
  {
    forall now: Time
      ensures CountWindow(edge, times[..k], chosen[..k], now) <= limit
    {
      CountWindowPrefix(edge, times, chosen, now, k);
    }
  }

  // ---------- Safety ----------

  /** Of calls no later than `earlier`, the window ending there holds all that a later one holds. */
  lemma {:induction false} LaterWindowHoldsFewer(edge: Edge, times: seq<Time>, chosen: seq<bool>, earlier: Time,
                                                 now: Time)
    requires |times| == |chosen| && NotAfter(times, earlier) && earlier <= now
    ensures CountWindow(edge, times, chosen, now) <= CountWindow(edge, times, chosen, earlier)
  {
    if times == [] {
    } else {
      var n := |times| - 1;
      LaterWindowHoldsFewer(edge, times[..n], chosen[..n], earlier, now);
    }
  }

  /** At most `limit` admissions fall in any window of 60 seconds. */
  lemma {:induction false} GreedyIsFeasible(edge: Edge, limit: int, times: seq<Time>)
    requires limit > 0 && Nondecreasing(times)
    ensures Feasible(edge, limit, times, Greedy(edge, limit, times))
  {
    if times == [] {
    } else {
      var n := |times| - 1;
      var before := Greedy(edge, limit, times[..n]);
      GreedyIsFeasible(edge, limit, times[..n]);
      PurgeCounts(edge, times[..n], before, times[n]);
      assert Greedy(edge, limit, times)[..n] == before;
      forall now: Time
        ensures CountWindow(edge, times, Greedy(edge, limit, times), now) <= limit
      {
        assert CountWindow(edge, times[..n], before, now) <= limit;
        if times[n] <= now {
          LaterWindowHoldsFewer(edge, times[..n], before, times[n], now);
        }
      }
    }
  }

  // ---------- Optimality: greedy stays ahead ----------

  /** The index from which the calls of a nondecreasing sequence are live at `now`. */
  ghost function FirstLive(edge: Edge, times: seq<Time>, now: Time): (j: nat)
    requires Nondecreasing(times)
    ensures j <= |times|
    ensures forall i :: 0 <= i < j ==> !Live(edge, times[i], now)
    ensures forall i :: j <= i < |times| ==> Live(edge, times[i], now)
  {
    if times == [] || !Live(edge, times[|times| - 1], now) then |times|
    else FirstLive(edge, times[..|times| - 1], now)
  }

  /** Everything chosen is either before the first live call or in the window. */
  lemma {:induction false} CountSplit(edge: Edge, times: seq<Time>, chosen: seq<bool>, now: Time, j: nat)
    requires |times| == |chosen| && NotAfter(times, now) && j <= |times|
    requires forall i :: 0 <= i < j ==> !Live(edge, times[i], now)
    requires forall i :: j <= i < |times| ==> Live(edge, times[i], now)
    ensures Count(chosen) == Count(chosen[..j]) + CountWindow(edge, times, chosen, now)
  {
    if times == [] {
    } else {
      var n := |times| - 1;
      if j <= n {
        CountSplit(edge, times[..n], chosen[..n], now, j);
        assert chosen[..n][..j] == chosen[..j];
      } else {
        CountSplit(edge, times[..n], chosen[..n], now, n);
        assert chosen[..n][..n] == chosen[..n] && chosen[..j] == chosen;
      }
    }
  }

  /** When greedy denies the last call, it has admitted `limit` calls since the window began. */
  lemma DenialMeansGreedyGained(edge: Edge, limit: int, times: seq<Time>, j: nat)
    requires limit > 0 && Nondecreasing(times) && times != []
    requires !Greedy(edge, limit, times)[|times| - 1]
    requires j == FirstLive(edge, times, times[|times| - 1])
    ensures Count(Greedy(edge, limit, times)) >= Count(Greedy(edge, limit, times)[..j]) + limit
  {
    var n := |times| - 1;
    var before := Greedy(edge, limit, times[..n]);
    assert Greedy(edge, limit, times)[..n] == before;
    PurgeCounts(edge, times[..n], before, times[n]);
    CountSplit(edge, times, Greedy(edge, limit, times), times[n], j);
  }

  /** No feasible choice gains more than `limit` over the calls before the window of the last one. */
  lemma FeasibleGainsAtMostLimit(edge: Edge, limit: int, times: seq<Time>, chosen: seq<bool>, j: nat)
    requires |times| == |chosen| && Feasible(edge, limit, times, chosen)
    requires Nondecreasing(times) && times != [] && j == FirstLive(edge, times, times[|times| - 1])
    ensures Count(chosen) <= Count(chosen[..j]) + limit
  {
    CountSplit(edge, times, chosen, times[|times| - 1], j);
    assert CountWindow(edge, times, chosen, times[|times| - 1]) <= limit;
  }

  lemma LastIsLive(edge: Edge, times: seq<Time>, j: nat)
    requires Nondecreasing(times) && times != [] && j == FirstLive(edge, times, times[|times| - 1])
    ensures j < |times|
  {
  }

  /** After a denial greedy has gained at least `limit` since the window began, so it is still ahead. */
  lemma StaysAheadAfterDenial(edge: Edge, limit: int, times: seq<Time>, chosen: seq<bool>, j: nat)
    requires limit > 0 && Nondecreasing(times) && times != []
    requires |times| == |chosen| && Feasible(edge, limit, times, chosen)
    requires !Greedy(edge, limit, times)[|times| - 1]
    requires j == FirstLive(edge, times, times[|times| - 1])
    requires Count(Greedy(edge, limit, times[..j])) >= Count(chosen[..j])
    ensures Count(Greedy(edge, limit, times)) >= Count(chosen)
  {
    DenialMeansGreedyGained(edge, limit, times, j);
    GreedyPrefix(edge, limit, times, j);
    FeasibleGainsAtMostLimit(edge, limit, times, chosen, j);
  }

  lemma StaysAheadAfterAdmission(edge: Edge, limit: int, times: seq<Time>, chosen: seq<bool>)
    requires times != [] && |times| == |chosen|
    requires Greedy(edge, limit, times)[|times| - 1]
    requires Count(Greedy(edge, limit, times[..|times| - 1])) >= Count(chosen[..|times| - 1])
    ensures Count(Greedy(edge, limit, times)) >= Count(chosen)
  {
  }

  lemma {:induction false} GreedyAdmitsMost(edge: Edge, limit: int, times: seq<Time>, chosen: seq<bool>)
    requires limit > 0 && Nondecreasing(times)
    requires |times| == |chosen| && Feasible(edge, limit, times, chosen)
    ensures Count(Greedy(edge, limit, times)) >= Count(chosen)
    decreases |times|
  {
    if times == [] {
    } else {
      var n := |times| - 1;
      if Greedy(edge, limit, times)[n] {
        FeasiblePrefix(edge, limit, times, chosen, n);
        GreedyAdmitsMost(edge, limit, times[..n], chosen[..n]);
        StaysAheadAfterAdmission(edge, limit, times, chosen);
      } else {
        var j := FirstLive(edge, times, times[n]);
        LastIsLive(edge, times, j);
        FeasiblePrefix(edge, limit, times, chosen, j);
        GreedyAdmitsMost(edge, limit, times[..j], chosen[..j]);
        StaysAheadAfterDenial(edge, limit, times, chosen, j);
      }
    }
  }

  /** On every prefix, greedy has admitted at least as many calls as any choice that keeps the limit. */
  lemma GreedyStaysAhead(edge: Edge, limit: int, times: seq<Time>, chosen: seq<bool>, k: nat)
    requires limit > 0 && Nondecreasing(times)
    requires |times| == |chosen| && Feasible(edge, limit, times, chosen) && k <= |times|
    ensures Count(Greedy(edge, limit, times)[..k]) >= Count(chosen[..k])
  {
    FeasiblePrefix(edge, limit, times, chosen, k);
    GreedyPrefix(edge, limit, times, k);
    GreedyAdmitsMost(edge, limit, times[..k], chosen[..k]);
  }

  lemma {:induction false} ClosedHoldsMore(times: seq<Time>, chosen: seq<bool>, now: Time)
    requires |times| == |chosen|
    ensures CountWindow(HalfOpen, times, chosen, now) <= CountWindow(Closed, times, chosen, now)
  {
    if times == [] {
    } else {
      ClosedHoldsMore(times[..|times| - 1], chosen[..|times| - 1], now);
    }
  }

  /** A half-open window admits at least as many calls as a closed one, on every prefix. */
  lemma HalfOpenStaysAheadOfClosed(limit: int, times: seq<Time>, k: nat)
    requires limit > 0 && Nondecreasing(times) && k <= |times|
    ensures Count(Greedy(HalfOpen, limit, times)[..k]) >= Count(Greedy(Closed, limit, times)[..k])
  {
    var closed := Greedy(Closed, limit, times);
    GreedyIsFeasible(Closed, limit, times);
    forall now: Time
      ensures CountWindow(HalfOpen, times, closed, now) <= limit
    {
      ClosedHoldsMore(times, closed, now);
      assert CountWindow(Closed, times, closed, now) <= limit;
    }
    GreedyStaysAhead(HalfOpen, limit, times, closed, k);
  }

  // ---------- When the two edges decide alike ----------

  /** The j-th call finds room only if the entries exactly 60 seconds old do not count. */
  ghost predicate EdgeDecides(limit: int, times: seq<Time>, j: nat)
    requires j < |times|
  {
    var log := Chosen(times[..j], Greedy(Closed, limit, times[..j]));
    |Purge(HalfOpen, log, times[j])| < limit <= |Purge(Closed, log, times[j])|
  }

  ghost predicate EdgeNeverDecides(limit: int, times: seq<Time>) {
    forall j :: 0 <= j < |times| ==> !EdgeDecides(limit, times, j)
  }

  lemma {:induction false} HalfOpenKeepsFewer(hits: seq<Time>, now: Time)
    ensures |Purge(HalfOpen, hits, now)| <= |Purge(Closed, hits, now)|
  {
    if hits == [] {
    } else {
      HalfOpenKeepsFewer(hits[..|hits| - 1], now);
    }
  }

  lemma EdgeSnoc(limit: int, times: seq<Time>, now: Time)
    ensures EdgeNeverDecides(limit, times + [now])
       <==> EdgeNeverDecides(limit, times) && !EdgeDecides(limit, times + [now], |times|)
  {
    var longer := times + [now];
    forall j | 0 <= j < |times|
      ensures EdgeDecides(limit, times, j) <==> EdgeDecides(limit, longer, j)
    {
      assert longer[..j] == times[..j];
    }
    if EdgeNeverDecides(limit, longer) {
      assert !EdgeDecides(limit, longer, |times|);
    }
  }

  lemma SameSnoc(limit: int, times: seq<Time>, now: Time)
    requires limit > 0
    ensures Greedy(Closed, limit, times + [now]) == Greedy(HalfOpen, limit, times + [now])
       <==>
         Greedy(Closed, limit, times) == Greedy(HalfOpen, limit, times) && !EdgeDecides(limit, times + [now], |times|)
  {
    var longer, closed, halfOpen := times + [now], Greedy(Closed, limit, times), Greedy(HalfOpen, limit, times);
    GreedySnoc(Closed, limit, times, now);
    GreedySnoc(HalfOpen, limit, times, now);
    HalfOpenKeepsFewer(Chosen(times, closed), now);
    assert longer[..|times|] == times && longer[|times|] == now;
    assert Greedy(Closed, limit, longer)[..|times|] == closed && Greedy(HalfOpen, limit, longer)[..|times|] == halfOpen;
  }

  /** The two edges admit the same calls exactly when no call hangs on an entry exactly 60 seconds old. */
  lemma {:induction false} EdgesAgreeExactly(limit: int, times: seq<Time>)
    requires limit > 0
    ensures Greedy(Closed, limit, times) == Greedy(HalfOpen, limit, times) <==> EdgeNeverDecides(limit, times)
  {
    if times == [] {
    } else {
      var front, now := times[..|times| - 1], times[|times| - 1];
      assert times == front + [now];
      EdgesAgreeExactly(limit, front);
      EdgeSnoc(limit, front, now);
      SameSnoc(limit, front, now);
    }
  }

  lemma {:induction false} SamePurge(hits: seq<Time>, now: Time)
    requires forall i :: 0 <= i < |hits| ==> now - hits[i] != 60.0
    ensures Purge(HalfOpen, hits, now) == Purge(Closed, hits, now)
  {
    if hits == [] {
    } else {
      SamePurge(hits[..|hits| - 1], now);
    }
  }

  lemma {:induction false} ChosenAreArrivals(times: seq<Time>, chosen: seq<bool>)
    requires |times| == |chosen|
    ensures forall i :: 0 <= i < |Chosen(times, chosen)| ==> Chosen(times, chosen)[i] in times
  {
    if times == [] {
    } else {
      var n := |times| - 1;
      ChosenAreArrivals(times[..n], chosen[..n]);
      assert forall t :: t in times[..n] ==> t in times;
      assert times[n] in times;
    }
  }

  /** In particular they do when no two calls arrive exactly 60 seconds apart. */
  lemma EdgesAgreeOffTheMinute(limit: int, times: seq<Time>)
    requires limit > 0
    requires forall i, j :: 0 <= i < j < |times| ==> times[j] - times[i] != 60.0
    ensures Greedy(Closed, limit, times) == Greedy(HalfOpen, limit, times)
  {
    forall j | 0 <= j < |times|
      ensures !EdgeDecides(limit, times, j)
    {
      var chosen := Greedy(Closed, limit, times[..j]);
      ChosenAreArrivals(times[..j], chosen);
      SamePurge(Chosen(times[..j], chosen), times[j]);
    }
    EdgesAgreeExactly(limit, times);
  }
}
