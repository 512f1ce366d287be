/**
 The per-proxy caches of the Ozon HTTP client: an open HTTP client, whether it was warmed up, and a
 browser fingerprint, with the log of everything that happened to them.
 */
module OzonPool {
  import opened Wrappers

  /** `None` is a direct connection. */
  type Proxy = Option<string>

  type ClientId = nat

  type Fingerprint = nat

  /** `Asked` is logged each time an attempt asks for the client of its proxy. */
  datatype Event =
    | Asked(proxy: Proxy)
    | Opened(proxy: Proxy, id: ClientId)
    | Closed(id: ClientId)
    | Warmed(id: ClientId)
    | Composed(id: ClientId)
    | Picked(proxy: Proxy, fingerprint: Fingerprint)
    | Dropped(proxy: Proxy)
    | ClosedAll(ids: set<ClientId>)

  /** The caches, and the log of everything that happened to them. */
  datatype Pool = Pool(
    clients: map<Proxy, ClientId>,
    warmed: set<Proxy>,
    fingerprints: map<Proxy, Fingerprint>,
    log: seq<Event>)

  function EmptyPool(): (pool: Pool) {
    Pool(map[], {}, map[], [])
  }

  // ---------- What a log says ----------

  function Opens(log: seq<Event>): (n: nat) {
    if log == [] then 0 else Opens(log[..|log| - 1]) + if log[|log| - 1].Opened? then 1 else 0
  }

  function Closes(log: seq<Event>): (n: nat) {
    if log == [] then 0
    else Closes(log[..|log| - 1]) + match log[|log| - 1]
         case Closed(_) => 1
         case ClosedAll(ids) => |ids|
         case _ => 0
  }

  function WarmUps(log: seq<Event>, id: ClientId): (n: nat) {
    if log == [] then 0 else WarmUps(log[..|log| - 1], id) + if log[|log| - 1] == Warmed(id) then 1 else 0
  }

  /** How many attempts went through the proxy. */
  function AttemptsOn(log: seq<Event>, proxy: Proxy): (n: nat) {
    if log == [] then 0 else AttemptsOn(log[..|log| - 1], proxy) + if log[|log| - 1] == Asked(proxy) then 1 else 0
  }

  /** Every composer request in the log came after exactly one warm-up of its client. */
  ghost predicate WarmBeforeCompose(log: seq<Event>) {
    forall i :: 0 <= i < |log| && log[i].Composed? ==> WarmUps(log[..i], log[i].id) == 1
  }

  /** The fingerprint the log has the proxy use: the last one picked since its last drop. */
  function FingerprintOf(log: seq<Event>, proxy: Proxy): (fingerprint: Option<Fingerprint>) {
    if log == [] then None
    else
      match log[|log| - 1]
      case Picked(p, fingerprint) => if p == proxy then Some(fingerprint) else FingerprintOf(log[..|log| - 1], proxy)
      case Dropped(p) => if p == proxy then None else FingerprintOf(log[..|log| - 1], proxy)
      case ClosedAll(_) => None
      case _ => FingerprintOf(log[..|log| - 1], proxy)
  }

  /** No fingerprint is picked for a proxy that has one. */
  ghost predicate PicksOnlyAnew(log: seq<Event>) {
    forall i :: 0 <= i < |log| && log[i].Picked? ==> FingerprintOf(log[..i], log[i].proxy).None?
  }

  // ---------- The operations on the caches ----------

  function Note(pool: Pool, e: Event): (p: Pool) {
    pool.(log := pool.log + [e])
  }

  function PickFingerprint(pool: Pool, proxy: Proxy, fingerprint: Fingerprint): (p: Pool) {
    if proxy in pool.fingerprints then pool
    else Note(pool, Picked(proxy, fingerprint)).(fingerprints := pool.fingerprints[proxy := fingerprint])
  }

  function Ask(pool: Pool, proxy: Proxy): (p: Pool) {
    Note(pool, Asked(proxy))
  }

  /** A new client's id is the number of clients opened before it. */
  function OpenClient(pool: Pool, proxy: Proxy): (p: Pool) {
    if proxy in pool.clients then pool
    else
      var id := Opens(pool.log);
      Note(pool, Opened(proxy, id)).(clients := pool.clients[proxy := id])
  }

  /** To ask for a proxy's client opens one exactly if there is none, under the next free id. */
  lemma AskThenOpen(pool: Pool, proxy: Proxy)
    ensures OpenClient(Ask(pool, proxy), proxy) ==
            if proxy in pool.clients then pool.(log := pool.log + [Asked(proxy)])
            else
              pool.(log := pool.log + [Asked(proxy)] + [Opened(proxy, Opens(pool.log))],
                    clients := pool.clients[proxy := Opens(pool.log)])
  {
  }

  function WarmUp(pool: Pool, proxy: Proxy): (p: Pool)
    requires proxy in pool.clients
  {
    Note(pool, Warmed(pool.clients[proxy])).(warmed := pool.warmed + {proxy})
  }

  function Compose(pool: Pool, proxy: Proxy): (p: Pool)
    requires proxy in pool.clients
  {
    Note(pool, Composed(pool.clients[proxy]))
  }

  function CloseClient(pool: Pool, proxy: Proxy): (p: Pool) {
    if proxy !in pool.clients then pool
    else
      Note(pool, Closed(pool.clients[proxy])).(clients := pool.clients - {proxy}, warmed := pool.warmed - {proxy})
  }

  function Forget(pool: Pool, proxy: Proxy): (p: Pool) {
    Note(pool, Dropped(proxy)).(warmed := pool.warmed - {proxy}, fingerprints := pool.fingerprints - {proxy})
  }

  function Drop(pool: Pool, proxy: Proxy): (p: Pool) {
    Forget(CloseClient(pool, proxy), proxy)
  }

  /** A drop removes the proxy from all three caches, and closes its client if it had one. */
  lemma DropRemoves(pool: Pool, proxy: Proxy)
    ensures Drop(pool, proxy) ==
            Pool(pool.clients - {proxy}, pool.warmed - {proxy}, pool.fingerprints - {proxy},
                 (if proxy in pool.clients then pool.log + [Closed(pool.clients[proxy])]
                     else pool.log) + [Dropped(proxy)])
  {
  }

  function CloseAll(pool: Pool): (p: Pool) {
    Note(pool, ClosedAll(pool.clients.Values)).(clients := map[], warmed := {}, fingerprints := map[])
  }

  // ---------- What every operation keeps ----------

  ghost predicate Nested(pool: Pool) {
    pool.warmed <= pool.clients.Keys <= pool.fingerprints.Keys
  }

  ghost predicate Injective(clients: map<Proxy, ClientId>) {
    forall p, q :: p in clients && q in clients && clients[p] == clients[q] ==> p == q
  }

  ghost predicate ClientsInv(pool: Pool) {
    && Injective(pool.clients)
    && (forall p :: p in pool.clients ==> pool.clients[p] < Opens(pool.log))
    && Opens(pool.log) == Closes(pool.log) + |pool.clients|
  }

  ghost predicate WarmInv(warmupSession: bool, pool: Pool) {
    && (forall p :: p in pool.clients ==> WarmUps(pool.log, pool.clients[p]) == if p in pool.warmed then 1 else 0)
    && (forall id :: id >= Opens(pool.log) ==> WarmUps(pool.log, id) == 0)
    && (warmupSession ==> WarmBeforeCompose(pool.log))
  }

  ghost predicate FingerprintInv(pool: Pool) {
    && (forall p :: FingerprintOf(pool.log, p)
         == if p in pool.fingerprints then Some(pool.fingerprints[p]) else None)
    && PicksOnlyAnew(pool.log)
  }

  ghost predicate Inv(warmupSession: bool, pool: Pool) {
    Nested(pool) && ClientsInv(pool) && WarmInv(warmupSession, pool) && FingerprintInv(pool)
  }

  lemma LogSnoc(log: seq<Event>, e: Event)
    ensures Opens(log + [e]) == Opens(log) + if e.Opened? then 1 else 0
    ensures Closes(log + [e]) == Closes(log) + match e case Closed(_) => 1 case ClosedAll(ids) => |ids| case _ => 0
    ensures forall id :: WarmUps(log + [e], id) == WarmUps(log, id) + if e == Warmed(id) then 1 else 0
  {
  }

  lemma FingerprintSnoc(log: seq<Event>, e: Event)
    ensures !e.Picked? && !e.Dropped? && !e.ClosedAll? ==>
        forall p :: FingerprintOf(log + [e], p) == FingerprintOf(log, p)
    ensures e.Picked? ==> forall p ::
      FingerprintOf(log + [e], p) == if p == e.proxy then Some(e.fingerprint) else FingerprintOf(log, p)
    ensures e.Dropped? ==> forall p :: FingerprintOf(log + [e], p) == if p == e.proxy then None
        else FingerprintOf(log, p)
    ensures e.ClosedAll? ==> forall p :: FingerprintOf(log + [e], p).None?
  {
  }

  lemma WarmBeforeComposeSnoc(log: seq<Event>, e: Event)
    requires WarmBeforeCompose(log) && (e.Composed? ==> WarmUps(log, e.id) == 1)
    ensures WarmBeforeCompose(log + [e])
  {
    forall i | 0 <= i < |log + [e]| && (log + [e])[i].Composed?
      ensures WarmUps((log + [e])[..i], (log + [e])[i].id) == 1
    {
      assert (log + [e])[..i] == log[..i];
      assert i == |log| ==> log[..i] == log;
    }
  }

  lemma PicksOnlyAnewSnoc(log: seq<Event>, e: Event)
    requires PicksOnlyAnew(log) && (e.Picked? ==> FingerprintOf(log, e.proxy).None?)
    ensures PicksOnlyAnew(log + [e])
  {
    forall i | 0 <= i < |log + [e]| && (log + [e])[i].Picked?
      ensures FingerprintOf((log + [e])[..i], (log + [e])[i].proxy).None?
    {
      assert (log + [e])[..i] == log[..i];
      assert i == |log| ==> log[..i] == log;
    }
  }

  /** An event that neither opens nor closes leaves the accounts of clients as they were. */
  lemma ClientsUntouched(pool: Pool, e: Event, after: Pool)
    requires ClientsInv(pool) && after.log == pool.log + [e] && after.clients == pool.clients
    requires !e.Opened? && !e.Closed? && !e.ClosedAll?
    ensures ClientsInv(after)
  {
  }

  /** An event other than a warm-up, for clients that were there before and are as warm as they were. */
  lemma WarmthUntouched(warmupSession: bool, pool: Pool, e: Event, after: Pool)
    requires WarmInv(warmupSession, pool) && after.log == pool.log + [e] && !e.Warmed?
    requires e.Composed? && warmupSession ==> WarmUps(pool.log, e.id) == 1
    requires forall p :: p in after.clients ==>
      p in pool.clients && after.clients[p] == pool.clients[p] && (p in after.warmed <==> p in pool.warmed)
    ensures WarmInv(warmupSession, after)
  {
    LogSnoc(pool.log, e);
    if warmupSession {
      WarmBeforeComposeSnoc(pool.log, e);
    }
  }

  /** An event that neither picks nor drops leaves the fingerprints as they were. */
  lemma FingerprintsUntouched(pool: Pool, e: Event, after: Pool)
    requires FingerprintInv(pool) && after.log == pool.log + [e] && after.fingerprints == pool.fingerprints
    requires !e.Picked? && !e.Dropped? && !e.ClosedAll?
    ensures FingerprintInv(after)
  {
    FingerprintSnoc(pool.log, e);
    PicksOnlyAnewSnoc(pool.log, e);
  }

  lemma PickKeepsFingerprints(pool: Pool, proxy: Proxy, fingerprint: Fingerprint)
    requires FingerprintInv(pool) && proxy !in pool.fingerprints
    ensures FingerprintInv(PickFingerprint(pool, proxy, fingerprint))
  {
    FingerprintSnoc(pool.log, Picked(proxy, fingerprint));
    PicksOnlyAnewSnoc(pool.log, Picked(proxy, fingerprint));
  }

  lemma PickKeepsInv(warmupSession: bool, pool: Pool, proxy: Proxy, fingerprint: Fingerprint)
    requires Inv(warmupSession, pool)
    ensures Inv(warmupSession, PickFingerprint(pool, proxy, fingerprint))
    ensures proxy in PickFingerprint(pool, proxy, fingerprint).fingerprints
  {
    if proxy !in pool.fingerprints {
      var e, after := Picked(proxy, fingerprint), PickFingerprint(pool, proxy, fingerprint);
      ClientsUntouched(pool, e, after);
      WarmthUntouched(warmupSession, pool, e, after);
      PickKeepsFingerprints(pool, proxy, fingerprint);
    }
  }

  lemma AskKeepsInv(warmupSession: bool, pool: Pool, proxy: Proxy)
    requires Inv(warmupSession, pool)
    ensures Inv(warmupSession, Ask(pool, proxy))
  {
    var e, after := Asked(proxy), Ask(pool, proxy);
    ClientsUntouched(pool, e, after);
    WarmthUntouched(warmupSession, pool, e, after);
    FingerprintsUntouched(pool, e, after);
  }

  lemma AttemptsSnoc(log: seq<Event>, e: Event, proxy: Proxy)
    ensures AttemptsOn(log + [e], proxy) == AttemptsOn(log, proxy) + if e == Asked(proxy) then 1 else 0
  {
    assert (log + [e])[..|log|] == log;
  }

  lemma OpenKeepsClients(pool: Pool, proxy: Proxy)
    requires ClientsInv(pool) && proxy !in pool.clients
    ensures ClientsInv(OpenClient(pool, proxy))
  {
    LogSnoc(pool.log, Opened(proxy, Opens(pool.log)));
  }

  lemma OpenKeepsWarmth(warmupSession: bool, pool: Pool, proxy: Proxy)
    requires WarmInv(warmupSession, pool) && proxy !in pool.clients && proxy !in pool.warmed
    ensures WarmInv(warmupSession, OpenClient(pool, proxy))
  {
    var e, id, after := Opened(proxy, Opens(pool.log)), Opens(pool.log), OpenClient(pool, proxy);
    LogSnoc(pool.log, e);
    if warmupSession {
      WarmBeforeComposeSnoc(pool.log, e);
    }
    forall p | p in after.clients
      ensures WarmUps(after.log, after.clients[p]) == if p in after.warmed then 1 else 0
    {
      assert p != proxy ==> WarmUps(pool.log, pool.clients[p]) == if p in pool.warmed then 1 else 0;
      assert WarmUps(pool.log, id) == 0;
    }
  }

  lemma OpenKeepsInv(warmupSession: bool, pool: Pool, proxy: Proxy)
    requires Inv(warmupSession, pool) && proxy in pool.fingerprints
    ensures Inv(warmupSession, OpenClient(pool, proxy))
  {
    if proxy !in pool.clients {
      OpenKeepsClients(pool, proxy);
      OpenKeepsWarmth(warmupSession, pool, proxy);
      FingerprintsUntouched(pool, Opened(proxy, Opens(pool.log)), OpenClient(pool, proxy));
    }
  }

  lemma WarmUpKeepsWarmth(warmupSession: bool, pool: Pool, proxy: Proxy)
    requires WarmInv(warmupSession, pool) && ClientsInv(pool) && proxy in pool.clients && proxy !in pool.warmed
    ensures WarmInv(warmupSession, WarmUp(pool, proxy))
  {
    var e, after := Warmed(pool.clients[proxy]), WarmUp(pool, proxy);
    LogSnoc(pool.log, e);
    if warmupSession {
      WarmBeforeComposeSnoc(pool.log, e);
    }
    forall p | p in after.clients
      ensures WarmUps(after.log, after.clients[p]) == if p in after.warmed then 1 else 0
    {
      assert pool.clients[p] == pool.clients[proxy] ==> p == proxy;
    }
  }

  lemma WarmUpKeepsInv(warmupSession: bool, pool: Pool, proxy: Proxy)
    requires Inv(warmupSession, pool) && proxy in pool.clients && proxy !in pool.warmed
    ensures Inv(warmupSession, WarmUp(pool, proxy))
  {
    ClientsUntouched(pool, Warmed(pool.clients[proxy]), WarmUp(pool, proxy));
    WarmUpKeepsWarmth(warmupSession, pool, proxy);
    FingerprintsUntouched(pool, Warmed(pool.clients[proxy]), WarmUp(pool, proxy));
  }

  lemma ComposeKeepsInv(warmupSession: bool, pool: Pool, proxy: Proxy)
    requires Inv(warmupSession, pool) && proxy in pool.clients && (warmupSession ==> proxy in pool.warmed)
    ensures Inv(warmupSession, Compose(pool, proxy))
  {
    var e, after := Composed(pool.clients[proxy]), Compose(pool, proxy);
    ClientsUntouched(pool, e, after);
    WarmthUntouched(warmupSession, pool, e, after);
    FingerprintsUntouched(pool, e, after);
  }

  lemma CloseKeepsClients(pool: Pool, proxy: Proxy)
    requires ClientsInv(pool) && proxy in pool.clients
    ensures ClientsInv(CloseClient(pool, proxy))
  {
    LogSnoc(pool.log, Closed(pool.clients[proxy]));
    assert pool.clients.Keys == (pool.clients - {proxy}).Keys + {proxy};
  }

  lemma CloseClientKeepsInv(warmupSession: bool, pool: Pool, proxy: Proxy)
    requires Inv(warmupSession, pool)
    ensures Inv(warmupSession, CloseClient(pool, proxy)) && proxy !in CloseClient(pool, proxy).clients
  {
    if proxy in pool.clients {
      var e, after := Closed(pool.clients[proxy]), CloseClient(pool, proxy);
      CloseKeepsClients(pool, proxy);
      WarmthUntouched(warmupSession, pool, e, after);
      FingerprintsUntouched(pool, e, after);
    }
  }

  lemma ForgetKeepsFingerprints(pool: Pool, proxy: Proxy)
    requires FingerprintInv(pool)
    ensures FingerprintInv(Forget(pool, proxy))
  {
    FingerprintSnoc(pool.log, Dropped(proxy));
    PicksOnlyAnewSnoc(pool.log, Dropped(proxy));
  }

  lemma ForgetKeepsInv(warmupSession: bool, pool: Pool, proxy: Proxy)
    requires Inv(warmupSession, pool) && proxy !in pool.clients
    ensures Inv(warmupSession, Forget(pool, proxy))
  {
    var e, after := Dropped(proxy), Forget(pool, proxy);
    ClientsUntouched(pool, e, after);
    WarmthUntouched(warmupSession, pool, e, after);
    ForgetKeepsFingerprints(pool, proxy);
  }

  lemma DropKeepsInv(warmupSession: bool, pool: Pool, proxy: Proxy)
    requires Inv(warmupSession, pool)
    ensures Inv(warmupSession, Drop(pool, proxy))
  {
    CloseClientKeepsInv(warmupSession, pool, proxy);
    ForgetKeepsInv(warmupSession, CloseClient(pool, proxy), proxy);
  }

  lemma ValuesWithout(clients: map<Proxy, ClientId>, p: Proxy)
    requires Injective(clients) && p in clients
    ensures clients.Values == (clients - {p}).Values + {clients[p]} && clients[p] !in (clients - {p}).Values
  {
    var rest := clients - {p};
    forall v | v in clients.Values
      ensures v == clients[p] || v in rest.Values
    {
      var q :| q in clients && clients[q] == v;
      assert q != p ==> q in rest && rest[q] == v;
    }
  }

  lemma {:induction false} InjectiveSize(clients: map<Proxy, ClientId>)
    requires Injective(clients)
    ensures |clients.Values| == |clients|
    decreases |clients|
  {
    if clients == map[] {
    } else {
      var p :| p in clients;
      assert clients.Keys == (clients - {p}).Keys + {p};
      InjectiveSize(clients - {p});
      ValuesWithout(clients, p);
    }
  }

  lemma CloseAllKeepsInv(warmupSession: bool, pool: Pool)
    requires Inv(warmupSession, pool)
    ensures Inv(warmupSession, CloseAll(pool))
    ensures Opens(CloseAll(pool).log) == Closes(CloseAll(pool).log)
  {
    var e, after := ClosedAll(pool.clients.Values), CloseAll(pool);
    InjectiveSize(pool.clients);
    LogSnoc(pool.log, e);
    WarmthUntouched(warmupSession, pool, e, after);
    CloseAllKeepsFingerprints(pool);
  }

  lemma CloseAllKeepsFingerprints(pool: Pool)
    requires FingerprintInv(pool)
    ensures FingerprintInv(CloseAll(pool))
  {
    FingerprintSnoc(pool.log, ClosedAll(pool.clients.Values));
    PicksOnlyAnewSnoc(pool.log, ClosedAll(pool.clients.Values));
  }

  /** Between two picks for one proxy lies a drop of that proxy, or a close of everything. */
  lemma {:induction false} FingerprintIsSticky(log: seq<Event>, i: nat, j: nat) returns (k: nat)
    requires PicksOnlyAnew(log) && i < j < |log|
    requires log[i].Picked? && log[j].Picked? && log[i].proxy == log[j].proxy
    ensures i < k < j && (log[k].ClosedAll? || log[k] == Dropped(log[i].proxy))
  {
    k := ForgottenBetween(log[..j], i);
  }

  lemma {:induction false} ForgottenBetween(log: seq<Event>, i: nat) returns (k: nat)
    requires i < |log| && log[i].Picked? && FingerprintOf(log, log[i].proxy).None?
    ensures i < k < |log| && (log[k].ClosedAll? || log[k] == Dropped(log[i].proxy))
    decreases |log|
  {
    var n := |log| - 1;
    if log[n].ClosedAll? || log[n] == Dropped(log[i].proxy) {
      k := n;
    } else {
      k := ForgottenBetween(log[..n], i);
    }
  }
}
