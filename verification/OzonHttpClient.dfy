/** The Ozon HTTP client: attempts over the caches of `OzonPool`, rotated and paced as in `OzonRetry`. */
module OzonHttpClient {
  import opened Wrappers
  import opened OzonPool
  import opened OzonRetry

  datatype Config = Config(
    proxies: seq<string>,
    maxRetries: int,
    baseDelay: real,
    warmupSession: bool,
    rotateUserAgents: bool,
    fixedFingerprint: Fingerprint)

  /**
   How the warm-up request ends: with any HTTP status, with a transport error (`quota` marks a spent
   proxy), or with another error.
   */
  datatype WarmReply = Warm | WarmLost(quota: bool) | WarmRaised

  datatype ComposerReply =
    | Payload(widgetStates: string)
    | Status(code: int)
    | Lost(quota: bool)
    | Raised  // not JSON, say, or too many redirects

  /** What the world decides about one attempt. */
  datatype Input = Input(pick: Fingerprint, throttle: Throttle, warm: WarmReply, reply: ComposerReply)

  /** `OtherError` is any error that the loop does not catch. */
  datatype Result = Found(widgetStates: string) | ProxyQuotaExhausted | AntiBot | OtherError

  datatype Verdict = Done(result: Result) | TryAgain(drop: bool)

  function VerdictOf(reply: ComposerReply): (verdict: Verdict) {
    match reply
    case Payload(widgetStates) => if widgetStates != "" then Done(Found(widgetStates)) else TryAgain(false)
    case Status(code) => if code == 402 || code == 407 then Done(ProxyQuotaExhausted) else TryAgain(true)
    case Lost(quota) => if quota then Done(ProxyQuotaExhausted) else TryAgain(true)
    case Raised => Done(OtherError)
  }

  function WarmVerdict(warm: WarmReply): (verdict: Verdict)
    requires !warm.Warm?
  {
    match warm
    case WarmLost(quota) => if quota then Done(ProxyQuotaExhausted) else TryAgain(true)
    case WarmRaised => Done(OtherError)
  }

  /** The warm-up, if the session needs one; a verdict means that it failed. */
  function WarmIfCold(cfg: Config, pool: Pool, proxy: Proxy, warm: WarmReply): (r: (Pool, Option<Verdict>))
    requires proxy in pool.clients
  {
    if !cfg.warmupSession || proxy in pool.warmed then (pool, None)
    else if warm.Warm? then (WarmUp(pool, proxy), None)
    else (pool, Some(WarmVerdict(warm)))
  }

  /** `_fetch_once`, and what the caller makes of its outcome. */
  function Fetch(cfg: Config, pool: Pool, proxy: Proxy, input: Input): (r: (Pool, Verdict)) {
    var (held, failed) := WarmIfCold(cfg, OpenClient(Ask(pool, proxy), proxy), proxy, input.warm);
    if failed.Some? then (held, failed.value) else (Compose(held, proxy), VerdictOf(input.reply))
  }

  /** The rest of an attempt, once the fingerprint is known: an error that is worth a retry drops the client. */
  function FetchOrDrop(cfg: Config, pool: Pool, proxy: Proxy, input: Input): (r: (Pool, Verdict)) {
    var (fetched, verdict) := Fetch(cfg, pool, proxy, input);
    (if verdict == TryAgain(true) then Drop(fetched, proxy) else fetched, verdict)
  }

  function Attempt(cfg: Config, pool: Pool, proxy: Proxy, input: Input): (r: (Pool, Verdict)) {
    var pick := if cfg.rotateUserAgents then input.pick else cfg.fixedFingerprint;
    FetchOrDrop(cfg, PickFingerprint(pool, proxy, pick), proxy, input)
  }

  function ProxyAt(cfg: Config, index: nat): (proxy: Proxy) {
    if cfg.proxies == [] then None else Some(cfg.proxies[index % |cfg.proxies|])
  }

  function IndexAfter(cfg: Config, index: nat): (after: nat) {
    if cfg.proxies == [] then index else index + 1
  }

  /** The constructor raises `max_retries` to at least 1. */
  function Retries(cfg: Config): (n: nat) {
    if cfg.maxRetries < 1 then 1 else cfg.maxRetries
  }

  /** The length of the retry loop. */
  function Attempts(cfg: Config): (n: nat) {
    Retries(cfg) * (if |cfg.proxies| > 0 then |cfg.proxies| else 1)
  }

  /** `lastExit` is when the last request left the throttle. */
  datatype Client = Client(pool: Pool, index: nat, lastExit: real)

  /** One turn of the retry loop; no result means that it goes on. */
  function Turn(cfg: Config, c: Client, input: Input): (r: (Client, Option<Result>)) {
    var (pool, verdict) := Attempt(cfg, c.pool, ProxyAt(cfg, c.index), input);
    (Client(pool, IndexAfter(cfg, c.index), ExitAfter(c.lastExit, input.throttle)),
        if verdict.Done? then Some(verdict.result) else None)
  }

  function TurnOf(cfg: Config): (step: (Client, Input) -> (Client, Option<Result>)) {
    (c, input) => Turn(cfg, c, input)
  }

  /** `get_composer_json`: the client after the loop, its result, and how many attempts it made. */
  function Call(cfg: Config, c: Client, inputs: seq<Input>): (r: (Client, Result, nat)) {
    var (last, result, used) := Retry(TurnOf(cfg), c, inputs);
    (last, if result.Some? then result.value else AntiBot, used)
  }

  // ---------- What every attempt keeps ----------

  lemma AttemptKeepsInv(cfg: Config, pool: Pool, proxy: Proxy, input: Input)
    requires Inv(cfg.warmupSession, pool)
    ensures Inv(cfg.warmupSession, Attempt(cfg, pool, proxy, input).0)
  {
    var pick := if cfg.rotateUserAgents then input.pick else cfg.fixedFingerprint;
    PickKeepsInv(cfg.warmupSession, pool, proxy, pick);
    FetchOrDropKeepsInv(cfg, PickFingerprint(pool, proxy, pick), proxy, input);
  }

  lemma FetchOrDropKeepsInv(cfg: Config, pool: Pool, proxy: Proxy, input: Input)
    requires Inv(cfg.warmupSession, pool) && proxy in pool.fingerprints
    ensures Inv(cfg.warmupSession, FetchOrDrop(cfg, pool, proxy, input).0)
  {
    var fetched := Fetch(cfg, pool, proxy, input).0;
    FetchKeepsInv(cfg, pool, proxy, input);
    DropKeepsInv(cfg.warmupSession, fetched, proxy);
  }

  lemma FetchKeepsInv(cfg: Config, pool: Pool, proxy: Proxy, input: Input)
    requires Inv(cfg.warmupSession, pool) && proxy in pool.fingerprints
    ensures Inv(cfg.warmupSession, Fetch(cfg, pool, proxy, input).0)
  {
    var held := OpenClient(Ask(pool, proxy), proxy);
    AskKeepsInv(cfg.warmupSession, pool, proxy);
    OpenKeepsInv(cfg.warmupSession, Ask(pool, proxy), proxy);
    var (warm, failed) := WarmIfCold(cfg, held, proxy, input.warm);
    WarmIfColdKeepsInv(cfg, held, proxy, input.warm);
    if failed.None? {
      ComposeKeepsInv(cfg.warmupSession, warm, proxy);
    }
  }

  lemma WarmIfColdKeepsInv(cfg: Config, pool: Pool, proxy: Proxy, warm: WarmReply)
    requires Inv(cfg.warmupSession, pool) && proxy in pool.clients
    ensures var (after, failed) := WarmIfCold(cfg, pool, proxy, warm);
            Inv(cfg.warmupSession, after) && (failed.None? && cfg.warmupSession ==> proxy in after.warmed)
  {
    if cfg.warmupSession && proxy !in pool.warmed && warm.Warm? {
      WarmUpKeepsInv(cfg.warmupSession, pool, proxy);
    }
  }

  lemma {:induction false} CallKeepsInv(cfg: Config, c: Client, inputs: seq<Input>)
    requires Inv(cfg.warmupSession, c.pool)
    ensures Inv(cfg.warmupSession, Retry(TurnOf(cfg), c, inputs).0.pool)
    decreases |inputs|
  {
    if inputs == [] {
    } else {
      AttemptKeepsInv(cfg, c.pool, ProxyAt(cfg, c.index), inputs[0]);
      CallKeepsInv(cfg, Turn(cfg, c, inputs[0]).0, inputs[1..]);
    }
  }

  // ---------- Whole runs ----------

  datatype Request = Get(inputs: seq<Input>) | Close

  function RunCalls(cfg: Config, calls: seq<Request>): (c: Client) {
    if calls == [] then Client(EmptyPool(), 0, 0.0)
    else
      var before := RunCalls(cfg, calls[..|calls| - 1]);
      match calls[|calls| - 1]
      case Get(inputs) => Call(cfg, before, inputs).0
      case Close => before.(pool := CloseAll(before.pool))
  }

  /**
   Over any run: warmed proxies are among those with an open client, and those among the
   fingerprinted ones; clients held less clients closed are the clients held; with warm-up on,
   every composer request follows exactly one completed warm-up of its own client; and a proxy gets a
   fingerprint only when it has none.
   */
  lemma {:induction false} EveryRunKeepsPool(cfg: Config, calls: seq<Request>)
    ensures var pool := RunCalls(cfg, calls).pool;
            && Inv(cfg.warmupSession, pool)
            && pool.warmed <= pool.clients.Keys <= pool.fingerprints.Keys
            && Opens(pool.log) - Closes(pool.log) == |pool.clients|
            && (cfg.warmupSession ==> WarmBeforeCompose(pool.log))
            && PicksOnlyAnew(pool.log)
  {
    if calls == [] {
    } else {
      var before := RunCalls(cfg, calls[..|calls| - 1]);
      EveryRunKeepsPool(cfg, calls[..|calls| - 1]);
      match calls[|calls| - 1] {
        case Get(inputs) => CallKeepsInv(cfg, before, inputs);
        case Close => CloseAllKeepsInv(cfg.warmupSession, before.pool);
      }
    }
  }

  /** After `close` nothing is held: every client ever held has been closed. */
  lemma CloseLeavesNothingOpen(cfg: Config, calls: seq<Request>)
    ensures var pool := RunCalls(cfg, calls + [Close]).pool;
            && Opens(pool.log) == Closes(pool.log)
            && pool.clients == map[] && pool.warmed == {} && pool.fingerprints == map[]
  {
    EveryRunKeepsPool(cfg, calls);
    CloseAllKeepsInv(cfg.warmupSession, RunCalls(cfg, calls).pool);
    assert (calls + [Close])[..|calls|] == calls;
  }

  lemma RunSnoc(cfg: Config, calls: seq<Request>, call: Request)
    ensures RunCalls(cfg, calls + [call]) ==
            match call
            case Get(inputs) => Call(cfg, RunCalls(cfg, calls), inputs).0
            case Close => RunCalls(cfg, calls).(pool := CloseAll(RunCalls(cfg, calls).pool))
  {
  }

  function Throttles(inputs: seq<Input>): (ts: seq<Throttle>)
    ensures |ts| == |inputs| && forall i :: 0 <= i < |inputs| ==> ts[i] == inputs[i].throttle
  {
    seq(|inputs|, i requires 0 <= i < |inputs| => inputs[i].throttle)
  }

  /** After a call, the index has moved once an attempt, and the last exit is that of its last attempt. */
  lemma {:induction false} CallAdvances(cfg: Config, c: Client, inputs: seq<Input>)
    ensures var (last, _, used) := Retry(TurnOf(cfg), c, inputs);
            && last.index == (if cfg.proxies == [] then c.index else c.index + used)
            && last.lastExit == LastExit(c.lastExit, Throttles(inputs[..used]))
    decreases |inputs|
  {
    if inputs == [] {
    } else {
      var (next, result) := Turn(cfg, c, inputs[0]);
      var used := Retry(TurnOf(cfg), c, inputs).2;
      CallAdvances(cfg, next, inputs[1..]);
      assert Throttles(inputs[..used])[1..] == Throttles(inputs[1..][..used - 1]);
    }
  }

  /** Where a call stands after `k` of its attempts. */
  lemma AfterAttempts(cfg: Config, c: Client, inputs: seq<Input>, k: nat)
    requires k <= |inputs|
    ensures k <= Retry(TurnOf(cfg), c, inputs).2 ==>
      var at := Retry(TurnOf(cfg), c, inputs[..k]).0;
      && at.index == (if cfg.proxies == [] then c.index else c.index + k)
      && at.lastExit == LastExit(c.lastExit, Throttles(inputs)[..k])
  {
    if k <= Retry(TurnOf(cfg), c, inputs).2 {
      RetryPrefix(TurnOf(cfg), c, inputs, k);
      CallAdvances(cfg, c, inputs[..k]);
      assert inputs[..k][..k] == inputs[..k];
      assert Throttles(inputs[..k]) == Throttles(inputs)[..k];
    }
  }

  // ---------- What an attempt does ----------

  /** How an attempt ends, told by the replies: `answered` says that it got as far as the composer request. */
  lemma AttemptEnds(cfg: Config, pool: Pool, proxy: Proxy, input: Input)
    ensures var verdict := Attempt(cfg, pool, proxy, input).1;
            var answered := !cfg.warmupSession || proxy in pool.warmed || input.warm.Warm?;
            var warm, reply := input.warm, input.reply;
            && (verdict.Done? && verdict.result.Found? <==> answered && reply.Payload? && reply.widgetStates != "")
            && (verdict.Done? && verdict.result.Found? ==> verdict.result.widgetStates == reply.widgetStates)
            && (verdict == Done(ProxyQuotaExhausted) <==>
                  if answered then reply == Status(402) || reply == Status(407) || reply == Lost(true)
                  else warm == WarmLost(true))
            && (verdict == Done(OtherError) <==> if answered then reply == Raised else warm == WarmRaised)
            && (verdict == TryAgain(false) <==> answered && reply == Payload(""))
            && (verdict == TryAgain(true) <==>
                  if answered then (reply.Status? && reply.code != 402 && reply.code != 407) || reply == Lost(false)
                  else warm == WarmLost(false))
  {
  }

  /** An attempt drops its proxy's client and fingerprint exactly if it may be retried on a new connection. */
  lemma AttemptDropsExactly(cfg: Config, pool: Pool, proxy: Proxy, input: Input)
    ensures var (after, verdict) := Attempt(cfg, pool, proxy, input);
            && (proxy in after.clients <==> verdict != TryAgain(true))
            && (proxy in after.fingerprints <==> verdict != TryAgain(true))
            && (verdict == TryAgain(true) ==> proxy !in after.warmed)
            && (proxy in pool.clients && proxy in after.clients ==> after.clients[proxy] == pool.clients[proxy])
            && (proxy in after.fingerprints && proxy in pool.fingerprints ==>
                  after.fingerprints[proxy] == pool.fingerprints[proxy])
            && (proxy in after.fingerprints && proxy !in pool.fingerprints ==>
                  after.fingerprints[proxy] == if cfg.rotateUserAgents then input.pick else cfg.fixedFingerprint)
  {
  }

  /** What the pool holds for a proxy. */
  function HeldFor(pool: Pool, p: Proxy): (held: (Option<ClientId>, bool, Option<Fingerprint>)) {
    (if p in pool.clients then Some(pool.clients[p]) else None, p in pool.warmed,
        if p in pool.fingerprints then Some(pool.fingerprints[p]) else None)
  }

  lemma OpenTouchesOne(pool: Pool, proxy: Proxy, p: Proxy)
    requires p != proxy
    ensures HeldFor(OpenClient(Ask(pool, proxy), proxy), p) == HeldFor(pool, p)
  {
  }

  lemma FetchTouchesOne(cfg: Config, pool: Pool, proxy: Proxy, input: Input, p: Proxy)
    requires p != proxy
    ensures HeldFor(Fetch(cfg, pool, proxy, input).0, p) == HeldFor(pool, p)
  {
    OpenTouchesOne(pool, proxy, p);
  }

  lemma DropTouchesOne(pool: Pool, proxy: Proxy, p: Proxy)
    requires p != proxy
    ensures HeldFor(Drop(pool, proxy), p) == HeldFor(pool, p)
  {
    DropRemoves(pool, proxy);
  }

  lemma FetchOrDropTouchesOne(cfg: Config, pool: Pool, proxy: Proxy, input: Input, p: Proxy)
    requires p != proxy
    ensures HeldFor(FetchOrDrop(cfg, pool, proxy, input).0, p) == HeldFor(pool, p)
  {
    FetchTouchesOne(cfg, pool, proxy, input, p);
    DropTouchesOne(Fetch(cfg, pool, proxy, input).0, proxy, p);
  }

  lemma PickTouchesOne(pool: Pool, proxy: Proxy, pick: Fingerprint, p: Proxy)
    requires p != proxy
    ensures HeldFor(PickFingerprint(pool, proxy, pick), p) == HeldFor(pool, p)
  {
  }

  /** An attempt through one proxy leaves what the pool holds for the others. */
  lemma AttemptTouchesOne(cfg: Config, pool: Pool, proxy: Proxy, input: Input, p: Proxy)
    requires p != proxy
    ensures HeldFor(Attempt(cfg, pool, proxy, input).0, p) == HeldFor(pool, p)
  {
    var pick := if cfg.rotateUserAgents then input.pick else cfg.fixedFingerprint;
    PickTouchesOne(pool, proxy, pick, p);
    FetchOrDropTouchesOne(cfg, PickFingerprint(pool, proxy, pick), proxy, input, p);
  }

  lemma TurnIsNotAntiBot(cfg: Config, c: Client, input: Input)
    ensures Turn(cfg, c, input).1 != Some(AntiBot)
  {
  }

  /** A call ends in the anti-bot error exactly when none of its attempts had a result. */
  lemma {:induction false} AntiBotMeansAllFailed(cfg: Config, c: Client, inputs: seq<Input>)
    ensures Call(cfg, c, inputs).1 == AntiBot <==> Retry(TurnOf(cfg), c, inputs).1.None?
    decreases |inputs|
  {
    if inputs == [] {
    } else {
      TurnIsNotAntiBot(cfg, c, inputs[0]);
      AntiBotMeansAllFailed(cfg, TurnOf(cfg)(c, inputs[0]).0, inputs[1..]);
    }
  }

  lemma QuietNote(log: seq<Event>, e: Event, p: Proxy)
    ensures !e.Asked? ==> AttemptsOn(log + [e], p) == AttemptsOn(log, p)
  {
    AttemptsSnoc(log, e, p);
  }

  lemma DropIsQuiet(pool: Pool, proxy: Proxy, p: Proxy)
    ensures AttemptsOn(Drop(pool, proxy).log, p) == AttemptsOn(pool.log, p)
  {
    if proxy in pool.clients {
      QuietNote(pool.log, Closed(pool.clients[proxy]), p);
    }
    QuietNote(CloseClient(pool, proxy).log, Dropped(proxy), p);
  }

  lemma OpenAsksOnce(pool: Pool, proxy: Proxy, p: Proxy)
    ensures AttemptsOn(OpenClient(Ask(pool, proxy), proxy).log, p)
         == AttemptsOn(pool.log, p) + if p == proxy then 1 else 0
  {
    var asked := Ask(pool, proxy);
    AttemptsSnoc(pool.log, Asked(proxy), p);
    QuietNote(asked.log, Opened(proxy, Opens(asked.log)), p);
  }

  lemma WarmIfColdIsQuiet(cfg: Config, pool: Pool, proxy: Proxy, warm: WarmReply, p: Proxy)
    requires proxy in pool.clients
    ensures AttemptsOn(WarmIfCold(cfg, pool, proxy, warm).0.log, p) == AttemptsOn(pool.log, p)
    ensures WarmIfCold(cfg, pool, proxy, warm).0.clients == pool.clients
  {
    QuietNote(pool.log, Warmed(pool.clients[proxy]), p);
  }

  lemma FetchAsksOnce(cfg: Config, pool: Pool, proxy: Proxy, input: Input, p: Proxy)
    ensures AttemptsOn(Fetch(cfg, pool, proxy, input).0.log, p)
         == AttemptsOn(pool.log, p) + if p == proxy then 1 else 0
  {
    var held := OpenClient(Ask(pool, proxy), proxy);
    OpenAsksOnce(pool, proxy, p);
    WarmIfColdIsQuiet(cfg, held, proxy, input.warm, p);
    QuietNote(WarmIfCold(cfg, held, proxy, input.warm).0.log, Composed(held.clients[proxy]), p);
  }

  /** An attempt goes through the proxy it is given, once, and through no other. */
  lemma AttemptAsksOnce(cfg: Config, pool: Pool, proxy: Proxy, input: Input, p: Proxy)
    ensures AttemptsOn(Attempt(cfg, pool, proxy, input).0.log, p)
         == AttemptsOn(pool.log, p) + if p == proxy then 1 else 0
  {
    var pick := if cfg.rotateUserAgents then input.pick else cfg.fixedFingerprint;
    QuietNote(pool.log, Picked(proxy, pick), p);
    var picked := PickFingerprint(pool, proxy, pick);
    FetchAsksOnce(cfg, picked, proxy, input, p);
    DropIsQuiet(Fetch(cfg, picked, proxy, input).0, proxy, p);
  }

  /** How many of the attempts numbered from `lo` up to `hi` are due to go through the proxy; none is direct. */
  function Due(cfg: Config, lo: nat, hi: nat, p: Proxy): (n: nat)
    requires cfg.proxies != [] && lo <= hi
  {
    if p.None? then 0 else Uses(cfg.proxies, lo, hi, p.value)
  }

  lemma DueSplit(cfg: Config, lo: nat, mid: nat, hi: nat, p: Proxy)
    requires cfg.proxies != [] && lo <= mid <= hi
    ensures Due(cfg, lo, hi, p) == Due(cfg, lo, mid, p) + Due(cfg, mid, hi, p)
  {
    if p.Some? {
      UsesSplit(cfg.proxies, lo, mid, hi, p.value);
    }
  }

  /** The log shows, for the proxy, `extra` attempts and those that the index says are due. */
  ghost predicate InTurn(cfg: Config, c: Client, p: Proxy, extra: int)
    requires cfg.proxies != []
  {
    AttemptsOn(c.pool.log, p) == extra + Due(cfg, 0, c.index, p)
  }

  lemma TurnIsInTurn(cfg: Config, c: Client, input: Input, p: Proxy, extra: int)
    requires cfg.proxies != [] && InTurn(cfg, c, p, extra)
    ensures InTurn(cfg, Turn(cfg, c, input).0, p, extra)
  {
    AttemptAsksOnce(cfg, c.pool, ProxyAt(cfg, c.index), input, p);
  }

  lemma {:induction false} CallIsInTurn(cfg: Config, c: Client, inputs: seq<Input>, p: Proxy, extra: int)
    requires cfg.proxies != [] && InTurn(cfg, c, p, extra)
    ensures InTurn(cfg, Retry(TurnOf(cfg), c, inputs).0, p, extra)
    decreases |inputs|
  {
    if inputs == [] {
    } else {
      TurnIsInTurn(cfg, c, inputs[0], p, extra);
      CallIsInTurn(cfg, Turn(cfg, c, inputs[0]).0, inputs[1..], p, extra);
    }
  }

  /**
   Over any run of calls and closes, the proxies are used in turn: of the attempts made so far, numbered from 0,
   a proxy has carried those whose number falls on it in the list of proxies; none was direct.
   */
  lemma {:induction false} EveryRunIsInTurn(cfg: Config, calls: seq<Request>, p: Proxy)
    requires cfg.proxies != []
    ensures var c := RunCalls(cfg, calls);
            AttemptsOn(c.pool.log, p) == if p.None? then 0 else Uses(cfg.proxies, 0, c.index, p.value)
  {
    if calls == [] {
    } else {
      var before := RunCalls(cfg, calls[..|calls| - 1]);
      EveryRunIsInTurn(cfg, calls[..|calls| - 1], p);
      match calls[|calls| - 1] {
        case Get(inputs) => CallIsInTurn(cfg, before, inputs, p, 0);
        case Close => QuietNote(before.pool.log, ClosedAll(before.pool.clients.Values), p);
      }
    }
  }

  lemma InTurnSince(cfg: Config, c: Client, last: Client, p: Proxy)
    requires cfg.proxies != [] && c.index <= last.index
    requires InTurn(cfg, last, p, AttemptsOn(c.pool.log, p) - Due(cfg, 0, c.index, p))
    ensures AttemptsOn(last.pool.log, p) == AttemptsOn(c.pool.log, p) + Due(cfg, c.index, last.index, p)
  {
    DueSplit(cfg, 0, c.index, last.index, p);
  }

  lemma CallAsksInTurn(cfg: Config, c: Client, inputs: seq<Input>, p: Proxy)
    requires cfg.proxies != []
    ensures var last := Call(cfg, c, inputs).0;
            && last.index == c.index + Call(cfg, c, inputs).2
            && AttemptsOn(last.pool.log, p) == AttemptsOn(c.pool.log, p) + Due(cfg, c.index, last.index, p)
  {
    CallAdvances(cfg, c, inputs);
    CallIsInTurn(cfg, c, inputs, p, AttemptsOn(c.pool.log, p) - Due(cfg, 0, c.index, p));
    InTurnSince(cfg, c, Call(cfg, c, inputs).0, p);
  }

  /** Since the log was `before`, the `used` attempts from the index on went through the proxies in turn. */
  ghost predicate UsedInTurn(cfg: Config, before: seq<Event>, after: seq<Event>, index: nat, used: nat)
    requires cfg.proxies != []
  {
    forall p ::
      AttemptsOn(after, Some(p)) == AttemptsOn(before, Some(p)) + Uses(cfg.proxies, index, index + used, p)
  }

  lemma EveryProxyInTurn(cfg: Config, c: Client, inputs: seq<Input>)
    requires cfg.proxies != []
    ensures var (last, _, used) := Call(cfg, c, inputs);
            UsedInTurn(cfg, c.pool.log, last.pool.log, c.index, used)
  {
    forall p
      ensures AttemptsOn(Call(cfg, c, inputs).0.pool.log, Some(p))
           == AttemptsOn(c.pool.log, Some(p))
              + Uses(cfg.proxies, c.index, c.index + Call(cfg, c, inputs).2, p)
    {
      CallAsksInTurn(cfg, c, inputs, Some(p));
    }
  }

  lemma RoundsAreEven(cfg: Config, index: nat, p: Proxy)
    requires cfg.proxies != []
    ensures var rounds := if cfg.maxRetries < 1 then 1 else cfg.maxRetries;
            && Attempts(cfg) == rounds * |cfg.proxies|
            && Due(cfg, index, index + Attempts(cfg), p)
               == if p.None? then 0 else rounds * multiset(cfg.proxies)[p.value]
  {
    if p.Some? {
      RotationIsEven(cfg.proxies, index, Retries(cfg), p.value);
    }
  }

  /** A call that fails on every attempt makes them all, and ends in the anti-bot error. */
  lemma FailedCallGoesOn(cfg: Config, c: Client, inputs: seq<Input>)
    requires Retry(TurnOf(cfg), c, inputs).1.None?
    ensures Call(cfg, c, inputs).1 == AntiBot && Call(cfg, c, inputs).2 == |inputs|
  {
  }

  /**
   A call with proxies that fails on every attempt: from whatever index it starts, each proxy carries
   `max_retries` attempts, or one if that is less than one, for each time it is listed; none is direct.
   */
  lemma FailedCallUsesProxiesEvenly(cfg: Config, c: Client, inputs: seq<Input>, p: Proxy)
    requires cfg.proxies != [] && |inputs| == Attempts(cfg) && Retry(TurnOf(cfg), c, inputs).1.None?
    ensures var rounds := if cfg.maxRetries < 1 then 1 else cfg.maxRetries;
            && Call(cfg, c, inputs).2 == rounds * |cfg.proxies|
            && AttemptsOn(Call(cfg, c, inputs).0.pool.log, p)
               == AttemptsOn(c.pool.log, p) + if p.None? then 0 else rounds * multiset(cfg.proxies)[p.value]
  {
    FailedCallGoesOn(cfg, c, inputs);
    CallAsksInTurn(cfg, c, inputs, p);
    RoundsAreEven(cfg, c.index, p);
  }

  /** Without proxies a call that fails makes `max_retries` direct attempts, or one if that is less than one. */
  lemma FailedCallWithoutProxies(cfg: Config, c: Client, inputs: seq<Input>)
    requires cfg.proxies == [] && |inputs| == Attempts(cfg) && Retry(TurnOf(cfg), c, inputs).1.None?
    ensures Call(cfg, c, inputs).2 == |inputs| == if cfg.maxRetries < 1 then 1 else cfg.maxRetries
    ensures AttemptsOn(Call(cfg, c, inputs).0.pool.log, None) == AttemptsOn(c.pool.log, None) + |inputs|
  {
    DirectAttempts(cfg, c, inputs);
  }

  lemma {:induction false} DirectAttempts(cfg: Config, c: Client, inputs: seq<Input>)
    requires cfg.proxies == []
    ensures var (last, _, used) := Retry(TurnOf(cfg), c, inputs);
            AttemptsOn(last.pool.log, None) == AttemptsOn(c.pool.log, None) + used
    decreases |inputs|
  {
    if inputs == [] {
    } else {
      var (next, result) := Turn(cfg, c, inputs[0]);
      AttemptAsksOnce(cfg, c.pool, None, inputs[0], None);
      if result.None? {
        DirectAttempts(cfg, next, inputs[1..]);
      }
    }
  }

  /** The throttles that the attempts of a whole run went through. */
  function RunThrottles(cfg: Config, calls: seq<Request>): (ts: seq<Throttle>) {
    if calls == [] then []
    else
      var n := |calls| - 1;
      RunThrottles(cfg, calls[..n])
      + match calls[n]
        case Get(inputs) => Throttles(inputs[..Retry(TurnOf(cfg), RunCalls(cfg, calls[..n]), inputs).2])
        case Close => []
  }

  lemma {:induction false} RunExits(cfg: Config, calls: seq<Request>)
    ensures RunCalls(cfg, calls).lastExit == LastExit(0.0, RunThrottles(cfg, calls))
  {
    if calls == [] {
    } else {
      var n := |calls| - 1;
      RunExits(cfg, calls[..n]);
      match calls[n] {
        case Get(inputs) =>
          var before := RunCalls(cfg, calls[..n]);
          CallAdvances(cfg, before, inputs);
          LastExitAppend(0.0, RunThrottles(cfg, calls[..n]), Throttles(inputs[..Retry(TurnOf(cfg), before, inputs).2]));
        case Close =>
          assert RunThrottles(cfg, calls) == RunThrottles(cfg, calls[..n]);
      }
    }
  }

  /**
   Over a whole run, across calls and closes: when the run ends, the last request has left at least as
   long after any earlier one as all the delays drawn since then add up to.
   */
  lemma EveryRunIsThrottled(cfg: Config, calls: seq<Request>, before: seq<Throttle>, since: seq<Throttle>)
    requires RunThrottles(cfg, calls) == before + since
    ensures RunCalls(cfg, calls).lastExit - LastExit(0.0, before) >= SumDelays(since)
  {
    RunExits(cfg, calls);
    LastExitAppend(0.0, before, since);
    ExitIsLate(LastExit(0.0, before), since);
  }

  // ---------- The client object ----------

  class OzonHttpClient {
    const cfg: Config
    var proxyIndex: nat
    var lastRequestAt: real
    var clients: map<Proxy, ClientId>
    var warmedProxies: set<Proxy>
    var fingerprints: map<Proxy, Fingerprint>
    ghost var log: seq<Event>
    var opens: nat  // the ids given to HTTP clients so far
    ghost var pauses: seq<real>  // the backoff sleeps of the last call
    ghost var calls: seq<Request>  // the calls made so far

    ghost function Now(): (c: Client)
      reads this
    {
      Client(Pool(clients, warmedProxies, fingerprints, log), proxyIndex, lastRequestAt)
    }

    /** The object is what the calls so far have made of it; `EveryRunKeepsPool` says what that implies. */
    ghost predicate Valid()
      reads this
    {
      Now() == RunCalls(cfg, calls) && opens == Opens(log)
    }

    constructor (cfg: Config)
      ensures Valid() && this.cfg == cfg && calls == []
    {
      this.cfg := cfg;
      proxyIndex, lastRequestAt, clients, warmedProxies, fingerprints := 0, 0.0, map[], {}, map[];
      log, opens, pauses, calls := [], 0, [], [];
    }

    /** Closes every held HTTP client, one by one. */
    method CloseHeld() returns (closed: set<ClientId>)
      ensures closed == clients.Values
    {
      var left := clients.Keys;
      closed := {};
      while left != {}
        invariant left <= clients.Keys
        invariant forall p :: p in clients && p !in left ==> clients[p] in closed
        invariant closed <= clients.Values
        decreases left
      {
        var p :| p in left;
        closed := closed + {clients[p]};
        left := left - {p};
      }
    }

    method CloseClients()
      requires Valid()
      modifies this
      ensures Valid() && calls == old(calls) + [Close]
    {
      var closed := CloseHeld();
      LogSnoc(log, ClosedAll(closed));
      RunSnoc(cfg, calls, Close);
      log := log + [ClosedAll(closed)];
      clients, warmedProxies, fingerprints := map[], {}, map[];
      calls := calls + [Close];
    }

    method NextProxy() returns (proxy: Proxy)
      modifies this`proxyIndex
      ensures proxy == ProxyAt(cfg, old(proxyIndex)) && proxyIndex == IndexAfter(cfg, old(proxyIndex))
      ensures cfg.proxies == [] ==> proxy == None && proxyIndex == old(proxyIndex)
      ensures cfg.proxies != [] ==>
        proxy == Some(cfg.proxies[old(proxyIndex) % |cfg.proxies|]) && proxyIndex == old(proxyIndex) + 1
    {
      if cfg.proxies == [] {
        return None;
      }
      proxy := Some(cfg.proxies[proxyIndex % |cfg.proxies|]);
      proxyIndex := proxyIndex + 1;
    }

    method FingerprintForProxy(proxy: Proxy, pick: Fingerprint) returns (fingerprint: Fingerprint)
      requires opens == Opens(log)
      modifies this`fingerprints, this`log
      ensures opens == Opens(log) && proxy in fingerprints && fingerprint == fingerprints[proxy]
      ensures fingerprint == if proxy in old(fingerprints) then old(fingerprints)[proxy]
          else if cfg.rotateUserAgents then pick else cfg.fixedFingerprint
      ensures var chosen := if cfg.rotateUserAgents then pick else cfg.fixedFingerprint;
              Now().pool == PickFingerprint(old(Now()).pool, proxy, chosen)
    {
      if proxy in fingerprints {
        return fingerprints[proxy];
      }
      fingerprint := if cfg.rotateUserAgents then pick else cfg.fixedFingerprint;
      LogSnoc(log, Picked(proxy, fingerprint));
      fingerprints := fingerprints[proxy := fingerprint];
      log := log + [Picked(proxy, fingerprint)];
    }

    method ClientForProxy(proxy: Proxy) returns (id: ClientId)
      requires opens == Opens(log)
      modifies this`clients, this`log, this`opens
      ensures opens == Opens(log) && proxy in clients && id == clients[proxy]
      ensures Now().pool == OpenClient(Ask(old(Now()).pool, proxy), proxy)
    {
      AskThenOpen(Now().pool, proxy);
      LogSnoc(log, Asked(proxy));
      log := log + [Asked(proxy)];
      if proxy !in clients {
        LogSnoc(log, Opened(proxy, opens));
        clients := clients[proxy := opens];
        log := log + [Opened(proxy, opens)];
        opens := opens + 1;
      }
      id := clients[proxy];
    }

    method DropClient(proxy: Proxy)
      requires opens == Opens(log)
      modifies this`clients, this`warmedProxies, this`fingerprints, this`log
      ensures opens == Opens(log) && Now().pool == Drop(old(Now()).pool, proxy)
    {
      DropRemoves(Now().pool, proxy);
      if proxy in clients {
        LogSnoc(log, Closed(clients[proxy]));
        log := log + [Closed(clients[proxy])];
      }
      LogSnoc(log, Dropped(proxy));
      clients := clients - {proxy};
      warmedProxies := warmedProxies - {proxy};
      fingerprints := fingerprints - {proxy};
      log := log + [Dropped(proxy)];
    }

    /** `t` holds the delay drawn for this request, the clock before the wait, and how late the wait ends. */
    method ThrottleRequest(t: Throttle) returns (wait: real)
      modifies this`lastRequestAt
      ensures wait == if t.delay <= 0.0 || t.before >= old(lastRequestAt) + t.delay then 0.0
          else old(lastRequestAt) + t.delay - t.before
      ensures lastRequestAt == ExitAfter(old(lastRequestAt), t)
    {
      if t.delay <= 0.0 {
        return 0.0;
      }
      wait := 0.0;
      var elapsed := t.before - lastRequestAt;
      if elapsed < t.delay {
        wait := t.delay - elapsed;
      }
      lastRequestAt := t.before + wait + t.late;
    }

    /** The warm-up request of `_fetch_once`. */
    method WarmUpSession(proxy: Proxy, warm: WarmReply) returns (failed: Option<Verdict>)
      requires opens == Opens(log) && proxy in clients
      modifies this`warmedProxies, this`log
      ensures opens == Opens(log) && (Now().pool, failed) == WarmIfCold(cfg, old(Now()).pool, proxy, warm)
    {
      if cfg.warmupSession && proxy !in warmedProxies {
        if !warm.Warm? {
          return Some(WarmVerdict(warm));
        }
        LogSnoc(log, Warmed(clients[proxy]));
        log := log + [Warmed(clients[proxy])];
        warmedProxies := warmedProxies + {proxy};
      }
      return None;
    }

    method FetchOnce(proxy: Proxy, input: Input) returns (verdict: Verdict)
      requires opens == Opens(log)
      modifies this`clients, this`warmedProxies, this`log, this`opens, this`lastRequestAt
      ensures opens == Opens(log) && (Now().pool, verdict) == Fetch(cfg, old(Now()).pool, proxy, input)
      ensures lastRequestAt == ExitAfter(old(lastRequestAt), input.throttle)
    {
      var _ := ThrottleRequest(input.throttle);
      var id := ClientForProxy(proxy);
      var failed := WarmUpSession(proxy, input.warm);
      if failed.Some? {
        return failed.value;
      }
      LogSnoc(log, Composed(id));
      log := log + [Composed(id)];
      return VerdictOf(input.reply);
    }

    /** The body of the retry loop. */
    method AttemptOnce(input: Input) returns (found: Option<Result>)
      requires opens == Opens(log)
      modifies this`clients, this`warmedProxies, this`fingerprints, this`log, this`opens, this`lastRequestAt,
          this`proxyIndex
      ensures opens == Opens(log)
      ensures (Now(), found) == TurnOf(cfg)(old(Now()), input)
    {
      var proxy := NextProxy();
      var _ := FingerprintForProxy(proxy, input.pick);
      var verdict := FetchOnce(proxy, input);
      if verdict == TryAgain(true) {
        DropClient(proxy);
      }
      return if verdict.Done? then Some(verdict.result) else None;
    }

    method RetryAttempts(inputs: seq<Input>) returns (found: Option<Result>, used: nat)
      requires opens == Opens(log)
      modifies this`clients, this`warmedProxies, this`fingerprints, this`log, this`opens, this`lastRequestAt,
          this`proxyIndex, this`pauses
      ensures opens == Opens(log)
      ensures (Now(), found, used) == Retry(TurnOf(cfg), old(Now()), inputs)
      ensures pauses == Pauses(cfg.baseDelay, used)
    {
      ghost var start, step := Now(), TurnOf(cfg);
      found, used, pauses := None, 0, [];
      StandsAtStart(step, start, inputs);
      while used < |inputs| && found.None?
        invariant opens == Opens(log) && pauses == Pauses(cfg.baseDelay, used)
        invariant Stands(step, start, inputs, Now(), found, used)
      {
        if used > 0 {
          pauses := pauses + [Backoff(cfg.baseDelay, used)];
        }
        StandsAfterStep(step, start, inputs, Now(), used);
        found := AttemptOnce(inputs[used]);
        used := used + 1;
      }
      StandsAtEnd(step, start, inputs, Now(), found, used);
    }

    /** `inputs` is what the world does, attempt by attempt; a call that ends early leaves the rest unused. */
    method GetComposerJson(inputs: seq<Input>) returns (result: Result, used: nat)
      requires Valid() && |inputs| == Attempts(cfg)
      modifies this
      ensures Valid() && calls == old(calls) + [Get(inputs)]
      ensures (Now(), result, used) == Call(cfg, old(Now()), inputs)
      ensures pauses == Pauses(cfg.baseDelay, used)
      ensures lastRequestAt == LastExit(old(lastRequestAt), Throttles(inputs[..used]))
      ensures cfg.proxies != [] ==> UsedInTurn(cfg, old(log), log, old(proxyIndex), used)
    {
      RunSnoc(cfg, calls, Get(inputs));
      CallAdvances(cfg, Now(), inputs);
      if cfg.proxies != [] {
        EveryProxyInTurn(cfg, Now(), inputs);
      }
      var found;
      found, used := RetryAttempts(inputs);
      result := if found.Some? then found.value else AntiBot;
      calls := calls + [Get(inputs)];
    }
  }
}
