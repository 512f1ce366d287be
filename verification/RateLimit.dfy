/**
 The in-memory rate limiter of the API: per client, the admission times of the last 60 seconds,
 rewritten on every call. What it promises is about the whole history of calls, which the pruned
 lists no longer hold; the lemmas below tie the two together.
 */
module RateLimit {
  import opened SlidingWindow

  datatype Call = Call(client: string, now: Time)

  type Hits = map<string, seq<Time>>

  function HitsOf(hits: Hits, client: string): (times: seq<Time>) {
    if client in hits then hits[client] else []
  }

  /** One call of the limiter: the new table and the decision. */
  function AllowStep(limit: int, hits: Hits, call: Call): (r: (Hits, bool)) {
    if limit <= 0 then (hits, true)
    else
      var kept := Purge(Closed, HitsOf(hits, call.client), call.now);
      if |kept| >= limit then (hits[call.client := kept], false)
      else (hits[call.client := kept + [call.now]], true)
  }

  datatype Run = Run(hits: Hits, decisions: seq<bool>)

  /** The calls of all clients, interleaved, from an empty table. */
  function RunCalls(limit: int, calls: seq<Call>): (run: Run)
    ensures |run.decisions| == |calls|
  {
    if calls == [] then Run(map[], [])
    else
      var before := RunCalls(limit, calls[..|calls| - 1]);
      var (hits, ok) := AllowStep(limit, before.hits, calls[|calls| - 1]);
      Run(hits, before.decisions + [ok])
  }

  /** The clock readings of one client's calls. */
  function TimesOf(calls: seq<Call>, client: string): (times: seq<Time>) {
    if calls == [] then []
    else
      var n := |calls| - 1;
      TimesOf(calls[..n], client) + if calls[n].client == client then [calls[n].now] else []
  }

  /** The decisions one client saw. */
  function DecisionsFor(calls: seq<Call>, decisions: seq<bool>, client: string): (seen: seq<bool>)
    requires |calls| == |decisions|
    ensures |seen| == |TimesOf(calls, client)|
  {
    if calls == [] then []
    else
      var n := |calls| - 1;
      DecisionsFor(calls[..n], decisions[..n], client) + if calls[n].client == client then [decisions[n]] else []
  }

  /** The monotonic clock never goes back. */
  ghost predicate Monotonic(calls: seq<Call>) {
    forall i, j :: 0 <= i < j < |calls| ==> calls[i].now <= calls[j].now
  }

  ghost predicate CallsNotAfter(calls: seq<Call>, now: Time) {
    forall i :: 0 <= i < |calls| ==> calls[i].now <= now
  }

  lemma {:induction false} TimesAreOrdered(calls: seq<Call>, client: string)
    requires Monotonic(calls)
    ensures Nondecreasing(TimesOf(calls, client))
    ensures forall now :: CallsNotAfter(calls, now) ==> NotAfter(TimesOf(calls, client), now)
  {
    if calls == [] {
    } else {
      var n := |calls| - 1;
      TimesAreOrdered(calls[..n], client);
      assert CallsNotAfter(calls[..n], calls[n].now);
      forall now | CallsNotAfter(calls, now)
        ensures NotAfter(TimesOf(calls, client), now)
      {
        assert CallsNotAfter(calls[..n], now) && calls[n].now <= now;
      }
    }
  }

  /** The client's whole admission log, which the limiter itself does not keep. */
  ghost function FullLog(limit: int, calls: seq<Call>, client: string): (log: seq<Time>) {
    Chosen(TimesOf(calls, client), Greedy(Closed, limit, TimesOf(calls, client)))
  }

  /** One call: the decision is the one the full log gives, and the new list still stands for the full log. */
  lemma StepKeepsLog(limit: int, hits: Hits, call: Call, log: seq<Time>)
    requires limit > 0 && |HitsOf(hits, call.client)| <= limit
    requires Purge(Closed, HitsOf(hits, call.client), call.now) == Purge(Closed, log, call.now)
    ensures AllowStep(limit, hits, call).1 == (|Purge(Closed, log, call.now)| < limit)
    ensures |HitsOf(AllowStep(limit, hits, call).0, call.client)| <= limit
    ensures var log' := if AllowStep(limit, hits, call).1 then log + [call.now] else log;
            forall now :: call.now <= now ==>
              Purge(Closed, HitsOf(AllowStep(limit, hits, call).0, call.client), now) == Purge(Closed, log', now)
  {
    var kept := Purge(Closed, log, call.now);
    PurgeShrinks(Closed, HitsOf(hits, call.client), call.now);
    forall now | call.now <= now
      ensures Purge(Closed, kept, now) == Purge(Closed, log, now)
      ensures Purge(Closed, kept + [call.now], now) == Purge(Closed, log + [call.now], now)
    {
      PurgeTwice(Closed, log, call.now, now);
      PurgeSnoc(Closed, kept, call.now, now);
      PurgeSnoc(Closed, log, call.now, now);
    }
  }

  /** The list kept for the client stands for its whole log, from the last call on. */
  ghost predicate KeepsLog(limit: int, calls: seq<Call>, client: string) {
    forall now :: CallsNotAfter(calls, now) ==>
      Purge(Closed, HitsOf(RunCalls(limit, calls).hits, client), now)
          == Purge(Closed, FullLog(limit, calls, client), now)
  }

  lemma {:induction false} RunSnoc(limit: int, calls: seq<Call>, call: Call, client: string)
    ensures var before, after := RunCalls(limit, calls), RunCalls(limit, calls + [call]);
            var times, seen := TimesOf(calls, client), DecisionsFor(calls, before.decisions, client);
            && (after.hits, after.decisions[|calls|]) == AllowStep(limit, before.hits, call)
            && TimesOf(calls + [call], client) == (if call.client == client then times + [call.now] else times)
            && DecisionsFor(calls + [call], after.decisions, client)
               == (if call.client == client then seen + [after.decisions[|calls|]] else seen)
  {
  }

  lemma OwnCallKeepsLog(limit: int, calls: seq<Call>, call: Call)
    requires limit > 0 && CallsNotAfter(calls, call.now)
    requires |HitsOf(RunCalls(limit, calls).hits, call.client)| <= limit
    requires KeepsLog(limit, calls, call.client)
    ensures KeepsLog(limit, calls + [call], call.client)
    ensures |HitsOf(RunCalls(limit, calls + [call]).hits, call.client)| <= limit
    ensures RunCalls(limit, calls + [call]).decisions[|calls|]
         == Greedy(Closed, limit, TimesOf(calls + [call], call.client))[|TimesOf(calls, call.client)|]
  {
    var before := RunCalls(limit, calls);
    RunSnoc(limit, calls, call, call.client);
    GreedySnoc(Closed, limit, TimesOf(calls, call.client), call.now);
    StepKeepsLog(limit, before.hits, call, FullLog(limit, calls, call.client));
    forall now | CallsNotAfter(calls + [call], now)
      ensures call.now <= now
    {
      EarlierCallsNotAfter(calls, call, now);
    }
  }

  lemma OtherCallKeepsLog(limit: int, calls: seq<Call>, call: Call, client: string)
    requires client != call.client && KeepsLog(limit, calls, client)
    ensures KeepsLog(limit, calls + [call], client)
    ensures HitsOf(RunCalls(limit, calls + [call]).hits, client) == HitsOf(RunCalls(limit, calls).hits, client)
  {
    RunSnoc(limit, calls, call, client);
    assert FullLog(limit, calls + [call], client) == FullLog(limit, calls, client);
    forall now | CallsNotAfter(calls + [call], now)
      ensures CallsNotAfter(calls, now)
    {
      EarlierCallsNotAfter(calls, call, now);
    }
  }

  lemma EarlierCallsNotAfter(calls: seq<Call>, call: Call, now: Time)
    requires CallsNotAfter(calls + [call], now)
    ensures CallsNotAfter(calls, now) && call.now <= now
  {
    assert forall i :: 0 <= i < |calls| ==> (calls + [call])[i] == calls[i];
    assert (calls + [call])[|calls|] == call;
  }

  ghost predicate DecidesAsGreedy(limit: int, calls: seq<Call>, client: string) {
    DecisionsFor(calls, RunCalls(limit, calls).decisions, client) == Greedy(Closed, limit, TimesOf(calls, client))
  }

  lemma CallDecidesAsGreedy(limit: int, calls: seq<Call>, call: Call, client: string)
    requires DecidesAsGreedy(limit, calls, client)
    requires limit > 0 && call.client == client ==>
      RunCalls(limit, calls + [call]).decisions[|calls|]
      == Greedy(Closed, limit, TimesOf(calls + [call], client))[|TimesOf(calls, client)|]
    ensures DecidesAsGreedy(limit, calls + [call], client)
  {
    RunSnoc(limit, calls, call, client);
    GreedySnoc(Closed, limit, TimesOf(calls, client), call.now);
  }

  /**
   The pruned tables decide as the reference limiter decides on each client's own calls, with its
   whole log: pruning loses nothing, and no client's calls touch another's decisions. The tables
   hold at most `limit` times a client.
   */
  lemma {:induction false} PrunedRunIsGreedyPerClient(limit: int, calls: seq<Call>, client: string)
    requires Monotonic(calls)
    ensures DecidesAsGreedy(limit, calls, client)
    ensures limit > 0 ==> KeepsLog(limit, calls, client)
    ensures limit > 0 ==> |HitsOf(RunCalls(limit, calls).hits, client)| <= limit
  {
    if calls == [] {
    } else {
      var front, call := calls[..|calls| - 1], calls[|calls| - 1];
      PrunedRunIsGreedyPerClient(limit, front, client);
      assert calls == front + [call];
      assert Monotonic(front) && CallsNotAfter(front, call.now);
      if limit > 0 {
        if call.client == client {
          OwnCallKeepsLog(limit, front, call);
        } else {
          OtherCallKeepsLog(limit, front, call, client);
        }
      }
      CallDecidesAsGreedy(limit, front, call, client);
    }
  }

  /** At most `limit` admitted calls of a client fall in any closed 60 seconds. */
  lemma ClientNeverExceedsLimit(limit: int, calls: seq<Call>, client: string)
    requires limit > 0 && Monotonic(calls)
    ensures Feasible(Closed, limit, TimesOf(calls, client),
        DecisionsFor(calls, RunCalls(limit, calls).decisions, client))
  {
    PrunedRunIsGreedyPerClient(limit, calls, client);
    TimesAreOrdered(calls, client);
    GreedyIsFeasible(Closed, limit, TimesOf(calls, client));
  }

  /** No other way of keeping the limit serves the client better, on any prefix of its calls. */
  lemma ClientIsServedOptimally(limit: int, calls: seq<Call>, client: string, chosen: seq<bool>, k: nat)
    requires limit > 0 && Monotonic(calls)
    requires |chosen| == |TimesOf(calls, client)| && k <= |chosen|
    requires Feasible(Closed, limit, TimesOf(calls, client), chosen)
    ensures Count(DecisionsFor(calls, RunCalls(limit, calls).decisions, client)[..k]) >= Count(chosen[..k])
  {
    PrunedRunIsGreedyPerClient(limit, calls, client);
    TimesAreOrdered(calls, client);
    GreedyStaysAhead(Closed, limit, TimesOf(calls, client), chosen, k);
  }

  /** What a client is told depends on its own calls alone. */
  lemma ClientsDoNotInterfere(limit: int, calls: seq<Call>, others: seq<Call>, client: string)
    requires Monotonic(calls) && Monotonic(others)
    requires TimesOf(calls, client) == TimesOf(others, client)
    ensures DecisionsFor(calls, RunCalls(limit, calls).decisions, client)
         == DecisionsFor(others, RunCalls(limit, others).decisions, client)
  {
    PrunedRunIsGreedyPerClient(limit, calls, client);
    PrunedRunIsGreedyPerClient(limit, others, client);
  }

  lemma TablesStaySmall(limit: int, calls: seq<Call>)
    requires Monotonic(calls)
    ensures limit > 0 ==> forall client :: |HitsOf(RunCalls(limit, calls).hits, client)| <= limit
  {
    forall client
      ensures limit > 0 ==> |HitsOf(RunCalls(limit, calls).hits, client)| <= limit
    {
      PrunedRunIsGreedyPerClient(limit, calls, client);
    }
  }

  /** What one call does, in terms of everything before it. */
  lemma AllowMeans(limit: int, calls: seq<Call>, call: Call)
    requires Monotonic(calls) && CallsNotAfter(calls, call.now)
    ensures var (hits, ok) := AllowStep(limit, RunCalls(limit, calls).hits, call);
            && hits == RunCalls(limit, calls + [call]).hits
            && (ok <==> limit <= 0 || |Purge(Closed, FullLog(limit, calls, call.client), call.now)| < limit)
  {
    RunSnoc(limit, calls, call, call.client);
    PrunedRunIsGreedyPerClient(limit, calls, call.client);
  }

  class RateLimitMiddleware {
    const limit: int
    var hits: Hits
    ghost var calls: seq<Call>  // every call so far

    ghost predicate Valid()
      reads this
    {
      Monotonic(calls) && hits == RunCalls(limit, calls).hits
    }

    constructor (limitPerMinute: int)
      ensures Valid() && limit == limitPerMinute && calls == []
    {
      limit := limitPerMinute;
      hits := map[];
      calls := [];
    }

    /**
     `now` is the reading of the monotonic clock. The answer is the reference limiter's answer to
     the last of this client's calls.
     */
    method Allow(clientIp: string, now: Time) returns (ok: bool)
      requires Valid() && CallsNotAfter(calls, now)
      modifies this
      ensures Valid() && calls == old(calls) + [Call(clientIp, now)]
      ensures (hits, ok) == AllowStep(limit, old(hits), Call(clientIp, now))
      ensures ok <==> limit <= 0 || |Purge(Closed, FullLog(limit, old(calls), clientIp), now)| < limit
      ensures limit <= 0 ==> hits == old(hits)
      ensures limit > 0 ==>
        HitsOf(hits, clientIp) == Purge(Closed, HitsOf(old(hits), clientIp), now) + if ok then [now] else []
      ensures limit > 0 ==> forall client :: |HitsOf(hits, client)| <= limit
      ensures forall client :: client != clientIp ==> HitsOf(hits, client) == HitsOf(old(hits), client)
    {
      AllowMeans(limit, calls, Call(clientIp, now));
      calls := calls + [Call(clientIp, now)];
      assert Monotonic(calls);
      TablesStaySmall(limit, calls);
      if limit <= 0 {
        return true;
      }
      var kept := Purge(Closed, HitsOf(hits, clientIp), now);
      if |kept| >= limit {
        hits := hits[clientIp := kept];
        return false;
      }
      kept := kept + [now];
      hits := hits[clientIp := kept];
      return true;
    }
  }
}
