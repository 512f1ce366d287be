/** The arithmetic of the Ozon client's retries: which proxies, how long a pause, how far apart. */
module OzonRetry {
  import opened Wrappers

  // ---------- The loop ----------

  /** Steps until one yields a result or the inputs run out: the state, the result, the steps made. */
  function Retry<S, I, R>(step: (S, I) -> (S, Option<R>), s: S, inputs: seq<I>): (r: (S, Option<R>, nat))
    ensures r.2 <= |inputs|
    ensures r.1.None? ==> r.2 == |inputs|
    decreases |inputs|
  {
    if inputs == [] then (s, None, 0)
    else
      var (t, result) := step(s, inputs[0]);
      if result.Some? then (t, result, 1)
      else
        var (last, found, n) := Retry(step, t, inputs[1..]);
        (last, found, n + 1)
  }

  /** What is left of a loop that is at `s` after `used` steps. */
  function Rest<S, I, R>(step: (S, I) -> (S, Option<R>), s: S, inputs: seq<I>, used: nat): (r: (S, Option<R>, nat))
    requires used <= |inputs|
  {
    var (last, found, n) := Retry(step, s, inputs[used..]);
    (last, found, used + n)
  }

  /** Where a loop stands after `used` steps: stopped with a result, or with the rest still to do. */
  ghost predicate Stands<S, I, R>(step: (S, I) -> (S, Option<R>), start: S, inputs: seq<I>, s: S, found: Option<R>,
                                  used: nat) {
    && used <= |inputs|
    && Retry(step, start, inputs) == if found.Some? then (s, found, used) else Rest(step, s, inputs, used)
  }

  lemma StandsAtStart<S, I, R>(step: (S, I) -> (S, Option<R>), start: S, inputs: seq<I>)
    ensures Stands(step, start, inputs, start, None, 0)
  {
  }

  lemma StandsAfterStep<S, I, R>(step: (S, I) -> (S, Option<R>), start: S, inputs: seq<I>, s: S, used: nat)
    requires Stands(step, start, inputs, s, None, used) && used < |inputs|
    ensures var (t, found) := step(s, inputs[used]);
            Stands(step, start, inputs, t, found, used + 1)
  {
  }

  lemma StandsAtEnd<S, I, R>(step: (S, I) -> (S, Option<R>), start: S, inputs: seq<I>, s: S, found: Option<R>,
                             used: nat)
    requires Stands(step, start, inputs, s, found, used) && (found.Some? || used == |inputs|)
    ensures Retry(step, start, inputs) == (s, found, used)
  {
  }

  lemma {:induction false} RetryPrefix<S, I, R>(step: (S, I) -> (S, Option<R>), s: S, inputs: seq<I>, k: nat)
    requires k <= Retry(step, s, inputs).2
    ensures Retry(step, s, inputs[..k]).2 == k
    decreases |inputs|
  {
    if k > 1 {
      RetryPrefix(step, step(s, inputs[0]).0, inputs[1..], k - 1);
      assert inputs[..k][1..] == inputs[1..][..k - 1];
    } else if k == 1 {
      assert inputs[..1][1..] == [];
    }
  }

  /** The loop makes its k-th step in the state the first k left, and stops exactly at a step with a result. */
  lemma {:induction false} RetryStopsAtFirstResult<S, I, R>(step: (S, I) -> (S, Option<R>), s: S, inputs: seq<I>,
                                                            k: nat)
    requires k < Retry(step, s, inputs).2
    ensures var (before, none, used) := Retry(step, s, inputs[..k]);
            var (after, found) := step(before, inputs[k]);
            && none.None? && used == k
            && (found.Some? <==> k + 1 == Retry(step, s, inputs).2 && Retry(step, s, inputs).1.Some?)
            && (k + 1 == Retry(step, s, inputs).2 ==>
                  Retry(step, s, inputs).0 == after && Retry(step, s, inputs).1 == found)
    decreases |inputs|
  {
    if k > 0 {
      RetryStopsAtFirstResult(step, step(s, inputs[0]).0, inputs[1..], k - 1);
      assert inputs[..k][1..] == inputs[1..][..k - 1];
    } else if Retry(step, s, inputs).2 == 1 && step(s, inputs[0]).1.None? {
      assert inputs[1..] == [];
    }
  }

  // ---------- Rotation ----------

  /** How many of the turns numbered from `lo` up to `hi` fall on `x`, when the items are taken in turn. */
  function Uses<T(==)>(items: seq<T>, lo: nat, hi: nat, x: T): (uses: nat)
    requires items != [] && lo <= hi
    decreases hi
  {
    if lo == hi then 0 else Uses(items, lo, hi - 1, x) + if items[(hi - 1) % |items|] == x then 1 else 0
  }

  lemma {:induction false} UsesSplit<T>(items: seq<T>, lo: nat, mid: nat, hi: nat, x: T)
    requires items != [] && lo <= mid <= hi
    ensures Uses(items, lo, hi, x) == Uses(items, lo, mid, x) + Uses(items, mid, hi, x)
    decreases hi
  {
    if mid < hi {
      UsesSplit(items, lo, mid, hi - 1, x);
    }
  }

  lemma SmallMod(n: nat, x: nat)
    requires x < n
    ensures x % n == x
  {
  }

  lemma {:induction false} MultipleGrows(n: nat, a: int, b: int)
    requires 0 < n && a < b
    ensures n * a + n <= n * b
    decreases b - a
  {
    assert n * b == n * (b - 1) + n;
    if a < b - 1 {
      MultipleGrows(n, a, b - 1);
    }
  }

  lemma RemainderIsUnique(n: nat, q: int, r: nat, p: int, s: nat)
    requires r < n && s < n && n * q + r == n * p + s
    ensures r == s
  {
    if q < p {
      MultipleGrows(n, q, p);
    } else if p < q {
      MultipleGrows(n, p, q);
    }
  }

  lemma ModRepeats(n: nat, x: nat)
    requires 0 < n
    ensures (x + n) % n == x % n
  {
    var y := x + n;
    assert x == n * (x / n) + x % n && y == n * (y / n) + y % n;
    assert n * (x / n + 1) == n * (x / n) + n;
    RemainderIsUnique(n, x / n + 1, x % n, y / n, y % n);
  }

  lemma {:induction false} FirstRound<T>(items: seq<T>, hi: nat, x: T)
    requires items != [] && hi <= |items|
    ensures Uses(items, 0, hi, x) == multiset(items[..hi])[x]
  {
    if hi == 0 {
    } else {
      FirstRound(items, hi - 1, x);
      SmallMod(|items|, hi - 1);
      assert items[..hi] == items[..hi - 1] + [items[hi - 1]];
    }
  }

  lemma OneUse<T>(items: seq<T>, lo: nat, x: T)
    requires items != []
    ensures Uses(items, lo, lo + 1, x) == if items[lo % |items|] == x then 1 else 0
  {
  }

  /** Any `|items|` turns in a row fall on `x` as often as it is among the items. */
  lemma {:induction false} OneRound<T>(items: seq<T>, lo: nat, x: T)
    requires items != []
    ensures Uses(items, lo, lo + |items|, x) == multiset(items)[x]
  {
    var n := |items|;
    if lo == 0 {
      FirstRound(items, n, x);
      assert items[..n] == items;
    } else {
      OneRound(items, lo - 1, x);
      UsesSplit(items, lo - 1, lo, lo + n - 1, x);
      UsesSplit(items, lo, lo + n - 1, lo + n, x);
      OneUse(items, lo - 1, x);
      OneUse(items, lo + n - 1, x);
      ModRepeats(n, lo - 1);
    }
  }

  lemma OneRoundMore(n: nat, rounds: nat)
    requires rounds > 0
    ensures rounds * n == (rounds - 1) * n + n
  {
  }

  lemma AddRound<T>(items: seq<T>, start: nat, before: nat, x: T)
    requires items != []
    ensures Uses(items, start, start + (before + |items|), x)
         == Uses(items, start, start + before, x) + multiset(items)[x]
  {
    OneRound(items, start + before, x);
    UsesSplit(items, start, start + before, start + before + |items|, x);
  }

  /** Wherever they start, `rounds` times `|items|` turns fall on `x` `rounds` times as often as it is listed. */
  lemma {:induction false} RotationIsEven<T>(items: seq<T>, start: nat, rounds: nat, x: T)
    requires items != []
    ensures Uses(items, start, start + rounds * |items|, x) == rounds * multiset(items)[x]
  {
    if rounds == 0 {
    } else {
      RotationIsEven(items, start, rounds - 1, x);
      OneRoundMore(|items|, rounds);
      OneRoundMore(multiset(items)[x], rounds);
      AddRound(items, start, (rounds - 1) * |items|, x);
    }
  }

  // ---------- Backoff ----------

  const MAX_PAUSE: real := 60.0

  /** `base * 2^n`. */
  function Doubled(base: real, n: nat): (x: real) {
    if n == 0 then base else 2.0 * Doubled(base, n - 1)
  }

  /** The pause before an attempt other than the first. */
  function Backoff(base: real, attempt: nat): (pause: real)
    requires attempt > 0
  {
    var pause := Doubled(base, attempt - 1);
    if pause < MAX_PAUSE then pause else MAX_PAUSE
  }

  /** The pauses of a call that makes `attempts` attempts. */
  function Pauses(base: real, attempts: nat): (pauses: seq<real>)
    ensures |pauses| == if attempts == 0 then 0 else attempts - 1
  {
    if attempts <= 1 then [] else Pauses(base, attempts - 1) + [Backoff(base, attempts - 1)]
  }

  function Sum(xs: seq<real>): (total: real) {
    if xs == [] then 0.0 else Sum(xs[..|xs| - 1]) + xs[|xs| - 1]
  }

  lemma {:induction false} DoubledGrows(base: real, m: nat, n: nat)
    requires 0.0 <= base && m <= n
    ensures base <= Doubled(base, m) <= Doubled(base, n)
  {
    if n == 0 {
    } else {
      if m < n {
        DoubledGrows(base, m, n - 1);
      } else {
        DoubledGrows(base, m - 1, n - 1);
      }
    }
  }

  lemma {:induction false} PauseAt(base: real, attempts: nat, i: nat)
    requires i + 1 < attempts
    ensures Pauses(base, attempts)[i] == if Doubled(base, i) < 60.0 then Doubled(base, i) else 60.0
  {
    if i + 2 < attempts {
      PauseAt(base, attempts - 1, i);
    }
  }

  /** The pauses never get shorter. */
  lemma PausesNeverShrink(base: real, attempts: nat, i: nat, j: nat)
    requires 0.0 <= base && i <= j && j + 1 < attempts
    ensures 0.0 <= Pauses(base, attempts)[i] <= Pauses(base, attempts)[j] <= 60.0
  {
    PauseAt(base, attempts, i);
    PauseAt(base, attempts, j);
    DoubledGrows(base, i, j);
  }

  lemma SumSnoc(xs: seq<real>, x: real)
    ensures Sum(xs + [x]) == Sum(xs) + x
  {
  }

  function Power2(n: nat): (p: nat) {
    if n == 0 then 1 else 2 * Power2(n - 1)
  }

  lemma {:induction false} DoubledIsPower(base: real, n: nat)
    ensures Doubled(base, n) == base * Power2(n) as real
  {
    if n == 0 {
    } else {
      DoubledIsPower(base, n - 1);
      var p := Power2(n - 1) as real;
      assert Power2(n) as real == 2.0 * p;
      assert 2.0 * (base * p) == base * (2.0 * p);
    }
  }

  /**
   The pauses of `attempts` attempts sum to at most 60 seconds each, and at most to
   `base * (2^(attempts - 1) - 1)`, which they reach exactly when no pause was cut to 60 seconds.
   */
  lemma {:induction false} PausesAreBounded(base: real, attempts: nat)
    requires 0.0 <= base && attempts > 0
    ensures Sum(Pauses(base, attempts)) <= 60.0 * (attempts - 1) as real
    ensures Sum(Pauses(base, attempts)) <= Doubled(base, attempts - 1) - base
    ensures Sum(Pauses(base, attempts)) == Doubled(base, attempts - 1) - base
       <==> attempts == 1 || Doubled(base, attempts - 2) <= 60.0
  {
    if attempts > 1 {
      PausesAreBounded(base, attempts - 1);
      SumSnoc(Pauses(base, attempts - 1), Backoff(base, attempts - 1));
      if attempts > 2 {
        DoubledGrows(base, attempts - 3, attempts - 2);
      }
    }
  }

  // ---------- Throttle ----------

  type Lateness = x: real | 0.0 <= x

  /**
   One throttled request: the delay in force, the clock before the wait, and how much longer than
   asked the wait lasted.
   */
  datatype Throttle = Throttle(delay: real, before: real, late: Lateness)

  /** How long to wait, given when the last request left the throttle. */
  function WaitFor(delay: real, last: real, now: real): (wait: real) {
    if now - last < delay then delay - (now - last) else 0.0
  }

  /** When the request leaves; without a delay the last exit stays as it was. */
  function ExitAfter(last: real, t: Throttle): (exit: real) {
    if t.delay <= 0.0 then last else t.before + WaitFor(t.delay, last, t.before) + t.late
  }

  function LastExit(last: real, ts: seq<Throttle>): (exit: real)
    decreases |ts|
  {
    if ts == [] then last else LastExit(ExitAfter(last, ts[0]), ts[1..])
  }

  function SumDelays(ts: seq<Throttle>): (total: real) {
    if ts == [] then 0.0 else (if ts[0].delay > 0.0 then ts[0].delay else 0.0) + SumDelays(ts[1..])
  }

  /** A throttled request leaves no earlier than the last exit plus all the delays since. */
  lemma {:induction false} ExitIsLate(last: real, ts: seq<Throttle>)
    ensures LastExit(last, ts) >= last + SumDelays(ts)
    decreases |ts|
  {
    if ts == [] {
    } else {
      ExitIsLate(ExitAfter(last, ts[0]), ts[1..]);
    }
  }

  lemma {:induction false} LastExitAppend(last: real, a: seq<Throttle>, b: seq<Throttle>)
    ensures LastExit(last, a + b) == LastExit(LastExit(last, a), b)
    decreases |a|
  {
    if a == [] {
      assert a + b == b;
    } else {
      LastExitAppend(ExitAfter(last, a[0]), a[1..], b);
      assert (a + b)[1..] == a[1..] + b;
    }
  }

  /**
   A throttled request waits no longer than it must: until the delay since the last exit is over, if it is not.
   Without a delay it neither waits nor counts as an exit.
   */
  lemma ExitIsExact(last: real, t: Throttle)
    ensures t.delay > 0.0 ==>
      ExitAfter(last, t) == (if t.before < last + t.delay then last + t.delay else t.before) + t.late
    ensures t.delay <= 0.0 ==> ExitAfter(last, t) == last
  {
  }

  /** Two throttled requests leave at least as far apart as the delays in force between them add up to. */
  lemma ExitsAreApart(last: real, ts: seq<Throttle>, i: nat, j: nat)
    requires i < j < |ts| && ts[j].delay > 0.0
    ensures LastExit(last, ts[..j + 1]) - LastExit(last, ts[..i + 1]) >= SumDelays(ts[i + 1..j + 1]) >= ts[j].delay
  {
    var before, between := ts[..i + 1], ts[i + 1..j + 1];
    assert ts[..j + 1] == before + between;
    LastExitAppend(last, before, between);
    ExitIsLate(LastExit(last, before), between);
    LastDelayCounts(between);
    assert between[|between| - 1] == ts[j];
  }

  lemma {:induction false} LastDelayCounts(ts: seq<Throttle>)
    requires ts != []
    ensures SumDelays(ts) >= ts[|ts| - 1].delay && SumDelays(ts) >= 0.0
  {
    if |ts| > 1 {
      LastDelayCounts(ts[1..]);
    }
  }
}
