// The pool of live adapters: a cache by connection and database, with in-flight
// opens that concurrent requests join, idle sweeps and evictions.
//
// The event loop switches only at awaits, so the pool is a state machine whose
// steps are the stretches of code between them. A connected adapter is in one of
// two places, cached or closed; one that is still connecting belongs to its open.
module AdapterPool {
  import opened Wrappers

  datatype Key = Key(connection: string, database: string)

  datatype Entry = Entry(adapter: nat, revision: string, lastUsedAt: int)

  // Where an open stands: waiting for the stale adapter to close, waiting for
  // its own to connect, or resolved or rejected with its cleanup still to run.
  datatype Stage = Closing | Connecting(adapter: nat) | Resolved(adapter: nat) | Rejected

  datatype Open = Open(key: Key, revision: string, stage: Stage)

  // What an adapter was created for.
  datatype Made = Made(key: Key, revision: string)

  datatype Pool = Pool(
    entries: map<Key, Entry>,
    pending: map<Key, nat>,
    opens: map<nat, Open>,
    nextOpen: nat,
    nextAdapter: nat,
    made: map<nat, Made>,
    connected: set<nat>,
    closed: multiset<nat>)

  const EMPTY := Pool(map[], map[], map[], 0, 0, map[], {}, multiset{})

  // What an acquire gets: a cached adapter, or a promise to wait for.
  datatype Outcome = Hit(adapter: nat) | Join(open: nat) | Started(open: nat)

  datatype Acquired = Acquired(pool: Pool, outcome: Outcome)

  /* ----- the steps ----- */

  function Begin(p: Pool, key: Key, revision: string): Pool {
    var begun := p.(pending := p.pending[key := p.nextOpen], nextOpen := p.nextOpen + 1);
    if key in p.entries then
      begun.(entries := p.entries - {key},
             closed := p.closed + multiset{p.entries[key].adapter},
             opens := p.opens[p.nextOpen := Open(key, revision, Closing)])
    else
      begun.(nextAdapter := p.nextAdapter + 1,
             made := p.made[p.nextAdapter := Made(key, revision)],
             opens := p.opens[p.nextOpen := Open(key, revision, Connecting(p.nextAdapter))])
  }

  // acquire, once the configuration is resolved.
  function Acquiring(p: Pool, key: Key, revision: string, now: int): Acquired {
    if key in p.entries && p.entries[key].revision == revision then
      Acquired(p.(entries := p.entries[key := p.entries[key].(lastUsedAt := now)]), Hit(p.entries[key].adapter))
    else if key in p.pending then Acquired(p, Join(p.pending[key]))
    else Acquired(Begin(p, key, revision), Started(p.nextOpen))
  }

  // The stale adapter is closed: the new one is created and starts to connect.
  function AfterClose(p: Pool, o: nat): Pool {
    if o in p.opens && p.opens[o].stage.Closing? then
      p.(opens := p.opens[o := p.opens[o].(stage := Connecting(p.nextAdapter))],
         made := p.made[p.nextAdapter := Made(p.opens[o].key, p.opens[o].revision)],
         nextAdapter := p.nextAdapter + 1)
    else p
  }

  function AfterConnect(p: Pool, o: nat, ok: bool, now: int): Pool {
    if o in p.opens && p.opens[o].stage.Connecting? then
      var a, open := p.opens[o].stage.adapter, p.opens[o];
      if ok then
        p.(entries := p.entries[open.key := Entry(a, open.revision, now)],
           connected := p.connected + {a},
           opens := p.opens[o := open.(stage := Resolved(a))])
      else p.(opens := p.opens[o := open.(stage := Rejected)])
    else p
  }

  predicate Done(p: Pool, o: nat) {
    o in p.opens && (p.opens[o].stage.Resolved? || p.opens[o].stage.Rejected?)
  }

  // The `finally` of an open, a microtask later.
  function AfterSettle(p: Pool, o: nat): Pool {
    if Done(p, o) then p.(pending := p.pending - {p.opens[o].key}, opens := p.opens - {o}) else p
  }

  function AdaptersAt(entries: map<Key, Entry>, keys: set<Key>): set<nat> {
    set k | k in keys && k in entries :: entries[k].adapter
  }

  function Removed(p: Pool, keys: set<Key>): Pool {
    p.(entries := p.entries - keys, closed := p.closed + multiset(AdaptersAt(p.entries, keys)))
  }

  function IdleKeys(entries: map<Key, Entry>, now: int, idleMs: int): set<Key> {
    set k | k in entries && now - entries[k].lastUsedAt > idleMs
  }

  function Idle(p: Pool, now: int, idleMs: int): set<Key> {
    IdleKeys(p.entries, now, idleMs)
  }

  function OfConnection(p: Pool, connection: string): set<Key> {
    set k | k in p.entries && k.connection == connection
  }

  // The opens an eviction waits for before it looks at the cache.
  function InFlight(p: Pool, connection: string): set<nat> {
    set k | k in p.pending && k.connection == connection :: p.pending[k]
  }

  /* ----- the service ----- */

  class AdapterPoolService {
    var entries: map<Key, Entry>
    var pending: map<Key, nat>
    // the suspended calls of `open`
    var opens: map<nat, Open>
    var nextOpen: nat
    var nextAdapter: nat
    ghost var made: map<nat, Made>
    ghost var connected: set<nat>
    ghost var closed: multiset<nat>

    ghost function State(): Pool
      reads this
    {
      Pool(entries, pending, opens, nextOpen, nextAdapter, made, connected, closed)
    }

    constructor ()
      ensures State() == EMPTY
    {
      entries, pending, opens, nextOpen, nextAdapter := map[], map[], map[], 0, 0;
      made, connected, closed := map[], {}, multiset{};
    }

    method Acquire(id: string, database: string, configDatabase: string, revision: string, now: int) returns (r: Outcome)
      modifies this
      ensures var key := Key(id, if database != "" then database else configDatabase);
              Acquired(State(), r) == Acquiring(old(State()), key, revision, now)
    {
      var effectiveDb := if database != "" then database else configDatabase;
      var key := Key(id, effectiveDb);
      if key in entries && entries[key].revision == revision {
        entries := entries[key := entries[key].(lastUsedAt := now)];
        return Hit(entries[key].adapter);
      }
      if key in pending { return Join(pending[key]); }
      var open := OpenFor(key, revision);
      pending := pending[key := open];
      r := Started(open);
    }

    // `open` up to its first await.
    method OpenFor(key: Key, revision: string) returns (o: nat)
      modifies this
      ensures o == old(nextOpen) && pending == old(pending)
      ensures State().(pending := old(pending)[key := o]) == Begin(old(State()), key, revision)
    {
      o := nextOpen;
      nextOpen := nextOpen + 1;
      if key in entries {
        var stale := entries[key];
        entries := entries - {key};
        closed := closed + multiset{stale.adapter};
        opens := opens[o := Open(key, revision, Closing)];
      } else {
        opens := opens[o := Open(key, revision, Connecting(nextAdapter))];
        made := made[nextAdapter := Made(key, revision)];
        nextAdapter := nextAdapter + 1;
      }
    }

    method StaleClosed(o: nat)
      requires o in opens && opens[o].stage.Closing?
      modifies this
      ensures State() == AfterClose(old(State()), o)
    {
      opens := opens[o := opens[o].(stage := Connecting(nextAdapter))];
      made := made[nextAdapter := Made(opens[o].key, opens[o].revision)];
      nextAdapter := nextAdapter + 1;
    }

    method ConnectEnded(o: nat, ok: bool, now: int)
      requires o in opens && opens[o].stage.Connecting?
      modifies this
      ensures State() == AfterConnect(old(State()), o, ok, now)
    {
      var open := opens[o];
      var adapter := open.stage.adapter;
      if ok {
        entries := entries[open.key := Entry(adapter, open.revision, now)];
        connected := connected + {adapter};
        opens := opens[o := open.(stage := Resolved(adapter))];
      } else {
        opens := opens[o := open.(stage := Rejected)];
      }
    }

    // What the callers of the open and its joiners get.
    method Settle(o: nat) returns (adapter: Option<nat>)
      requires Done(State(), o)
      modifies this
      ensures State() == AfterSettle(old(State()), o)
      ensures adapter == if old(opens)[o].stage.Resolved? then Some(old(opens)[o].stage.adapter) else None
    {
      var open := opens[o];
      pending, opens := pending - {open.key}, opens - {o};
      adapter := if open.stage.Resolved? then Some(open.stage.adapter) else None;
    }

    // From `start`, the entries at `gone` were closed and deleted.
    ghost predicate Dropped(start: map<Key, Entry>, base: multiset<nat>, gone: set<Key>)
      reads this
    {
      entries == start - gone && closed == base + multiset(AdaptersAt(start, gone))
    }

    // close() is called and the entry deleted.
    method Drop(key: Key, ghost start: map<Key, Entry>, ghost base: multiset<nat>, ghost gone: set<Key>)
      requires Distinct(start) && key in start && key !in gone
      requires Dropped(start, base, gone)
      modifies this`entries, this`closed
      ensures Dropped(start, base, gone + {key})
    {
      OneMoreAdapter(start, gone, key);
      closed := closed + multiset{entries[key].adapter};
      entries := entries - {key};
    }

    method Sweep(now: int, idleMs: int)
      requires Sound(State())
      modifies this`entries, this`closed
      ensures State() == Removed(old(State()), Idle(old(State()), now, idleMs))
    {
      DropIdle(now, idleMs);
    }

    method DropIdle(now: int, idleMs: int)
      requires Distinct(entries)
      modifies this`entries, this`closed
      ensures Dropped(old(entries), old(closed), IdleKeys(old(entries), now, idleMs))
    {
      ghost var start, base := entries, closed;
      ghost var idle := IdleKeys(start, now, idleMs);
      var left := entries.Keys;
      ghost var gone: set<Key> := {};
      while left != {}
        invariant left <= start.Keys && gone == idle - left
        invariant Dropped(start, base, gone)
        decreases |left|
      {
        var id :| id in left;
        assert id in entries && entries[id] == start[id];
        TakeOne(idle, left, id);
        left := left - {id};
        if now - entries[id].lastUsedAt > idleMs {
          Drop(id, start, base, gone);
          gone := gone + {id};
        }
      }
      assert gone == idle;
    }

    // The opens an eviction waits for are all those of the connection.
    method EvictBegin(id: string) returns (opening: set<nat>)
      requires Threaded(State())
      ensures forall o :: o in opening <==> o in opens && opens[o].key.connection == id
    {
      opening := set k | k in pending && k.connection == id :: pending[k];
      OpensAreSeen(State(), id);
      assert opening == InFlight(State(), id);
    }

    // Runs when the opens seen at the start have settled.
    method EvictFinish(id: string)
      requires Sound(State())
      modifies this`entries, this`closed
      ensures State() == Removed(old(State()), OfConnection(old(State()), id))
    {
      ghost var start, base := entries, closed;
      var targets := set k | k in entries && k.connection == id;
      ghost var all, gone: set<Key> := targets, {};
      while targets != {}
        invariant targets <= all <= start.Keys && gone == all - targets
        invariant Dropped(start, base, gone)
        decreases |targets|
      {
        var key :| key in targets;
        TakeOne(all, targets, key);
        Drop(key, start, base, gone);
        targets, gone := targets - {key}, gone + {key};
      }
      assert gone == all == OfConnection(old(State()), id);
    }
  }

  lemma TakeOne(all: set<Key>, left: set<Key>, key: Key)
    requires key in left
    ensures all - (left - {key}) == if key in all then (all - left) + {key} else all - left
  {
  }

  ghost predicate Distinct(entries: map<Key, Entry>) {
    forall k, l :: k in entries && l in entries && entries[k].adapter == entries[l].adapter ==> k == l
  }

  lemma OneMoreAdapter(entries: map<Key, Entry>, gone: set<Key>, key: Key)
    requires Distinct(entries) && key in entries && key !in gone
    ensures entries - gone - {key} == entries - (gone + {key})
    ensures multiset(AdaptersAt(entries, gone + {key})) == multiset(AdaptersAt(entries, gone)) + multiset{entries[key].adapter}
  {
    var a := entries[key].adapter;
    assert a !in AdaptersAt(entries, gone);
    assert AdaptersAt(entries, gone + {key}) == AdaptersAt(entries, gone) + {a};
  }

  /* ----- what every step keeps ----- */

  // The in-flight opens and the pending promises are the same, one for a key.
  ghost predicate Threaded(p: Pool) {
    && (forall o :: o in p.opens ==> o < p.nextOpen && p.opens[o].key in p.pending && p.pending[p.opens[o].key] == o)
    && (forall k :: k in p.pending ==> p.pending[k] in p.opens && p.opens[p.pending[k]].key == k)
  }

  // No open overwrites a cached adapter.
  ghost predicate Vacant(p: Pool) {
    forall o :: o in p.opens && (p.opens[o].stage.Closing? || p.opens[o].stage.Connecting?) ==> p.opens[o].key !in p.entries
  }

  // Adapters being connected are new, each of one open.
  ghost predicate Unborn(p: Pool) {
    && (forall o :: o in p.opens && p.opens[o].stage.Connecting? ==>
          p.opens[o].stage.adapter < p.nextAdapter && p.opens[o].stage.adapter !in p.connected)
    && (forall o, q :: o in p.opens && q in p.opens && o != q && p.opens[o].stage.Connecting? && p.opens[q].stage.Connecting? ==>
          p.opens[o].stage.adapter != p.opens[q].stage.adapter)
    && (forall a :: a in p.connected ==> a < p.nextAdapter)
  }

  // Cached adapters are connected, not closed, and cached under one key.
  ghost predicate Sound(p: Pool) {
    && (forall k :: k in p.entries ==> p.entries[k].adapter in p.connected && p.entries[k].adapter !in p.closed)
    && Distinct(p.entries)
  }

  // An adapter serves the key and the revision it was created for.
  ghost predicate Genuine(p: Pool) {
    && (forall a :: a in p.made ==> a < p.nextAdapter)
    && (forall o :: o in p.opens && p.opens[o].stage.Connecting? ==>
          p.opens[o].stage.adapter in p.made && p.made[p.opens[o].stage.adapter] == Made(p.opens[o].key, p.opens[o].revision))
    && (forall o :: o in p.opens && p.opens[o].stage.Resolved? ==>
          p.opens[o].stage.adapter in p.made && p.made[p.opens[o].stage.adapter] == Made(p.opens[o].key, p.opens[o].revision))
    && (forall k :: k in p.entries ==>
          p.entries[k].adapter in p.made && p.made[p.entries[k].adapter] == Made(k, p.entries[k].revision))
  }

  lemma BeginGenuine(p: Pool, key: Key, revision: string)
    requires Genuine(p)
    ensures Genuine(Begin(p, key, revision))
  {
  }

  lemma ConnectGenuine(p: Pool, o: nat, ok: bool, now: int)
    requires Genuine(p)
    ensures Genuine(AfterClose(p, o)) && Genuine(AfterConnect(p, o, ok, now))
  {
  }

  lemma StepKeepsGenuine(p: Pool, e: Event)
    requires Genuine(p)
    ensures Genuine(Step(p, e))
  {
    match e
    case AcquireResumes(key, revision, now) => BeginGenuine(p, key, revision);
    case StaleClosed(open) => ConnectGenuine(p, open, true, 0);
    case ConnectEnded(open, ok, now) => ConnectGenuine(p, open, ok, now);
    case _ =>
  }

  lemma {:induction false} RunKeepsGenuine(p: Pool, events: seq<Event>)
    requires Genuine(p)
    ensures Genuine(Run(p, events))
  {
    if |events| > 0 {
      RunKeepsGenuine(p, events[..|events| - 1]);
      StepKeepsGenuine(Run(p, events[..|events| - 1]), events[|events| - 1]);
    }
  }

  predicate Cached(p: Pool, a: nat) {
    exists k :: k in p.entries && p.entries[k].adapter == a
  }

  // Each connected adapter is cached or was closed once.
  ghost predicate Accounted(p: Pool) {
    && (forall a :: a in p.connected ==> Cached(p, a) || a in p.closed)
    && (forall a :: a in p.closed ==> a in p.connected && p.closed[a] == 1)
    && (forall o :: o in p.opens && p.opens[o].stage.Resolved? ==> p.opens[o].stage.adapter in p.connected)
  }

  ghost predicate Inv(p: Pool) {
    Threaded(p) && Vacant(p) && Unborn(p) && Sound(p) && Accounted(p)
  }

  lemma HitKeeps(p: Pool, key: Key, now: int)
    requires Inv(p) && key in p.entries
    ensures Inv(p.(entries := p.entries[key := p.entries[key].(lastUsedAt := now)]))
  {
    var q := p.(entries := p.entries[key := p.entries[key].(lastUsedAt := now)]);
    assert q.entries.Keys == p.entries.Keys;
    HitThreads(p, q);
    SameAdapters(p, q);
  }

  lemma HitThreads(p: Pool, q: Pool)
    requires Threaded(p) && Vacant(p) && Unborn(p)
    requires q == p.(entries := q.entries) && q.entries.Keys == p.entries.Keys
    ensures Threaded(q) && Vacant(q) && Unborn(q)
  {
  }

  // The same adapters under the same keys, and the same books.
  lemma SameAdapters(p: Pool, q: Pool)
    requires Sound(p) && Accounted(p)
    requires q.connected == p.connected && q.closed == p.closed
    requires p.entries.Keys == q.entries.Keys && forall k :: k in p.entries ==> q.entries[k].adapter == p.entries[k].adapter
    requires forall o :: o in q.opens && q.opens[o].stage.Resolved? ==> o in p.opens && q.opens[o] == p.opens[o]
    ensures Sound(q) && Accounted(q)
  {
    forall a | Cached(p, a) ensures Cached(q, a) {
      var k :| k in p.entries && p.entries[k].adapter == a;
      assert k in q.entries && q.entries[k].adapter == a;
    }
  }

  lemma BeginKeeps(p: Pool, key: Key, revision: string)
    requires Inv(p) && key !in p.pending
    ensures Inv(Begin(p, key, revision))
  {
    BeginThreads(p, key, revision);
    BeginVacant(p, key, revision);
    BeginOpens(p, key, revision);
    BeginAccounts(p, key, revision);
  }

  lemma BeginThreads(p: Pool, key: Key, revision: string)
    requires Threaded(p) && key !in p.pending
    ensures Threaded(Begin(p, key, revision))
  {
    assert p.nextOpen !in p.opens;
  }

  lemma BeginVacant(p: Pool, key: Key, revision: string)
    requires Threaded(p) && Vacant(p)
    ensures Vacant(Begin(p, key, revision))
  {
  }

  lemma BeginOpens(p: Pool, key: Key, revision: string)
    requires Threaded(p) && Unborn(p) && Sound(p)
    ensures Unborn(Begin(p, key, revision)) && Sound(Begin(p, key, revision))
  {
    assert p.nextOpen !in p.opens;
  }

  // Only the entry of the key goes, and its adapter is closed.
  lemma BeginCaches(p: Pool, key: Key, revision: string, a: nat)
    requires Cached(p, a)
    ensures Cached(Begin(p, key, revision), a) || a in Begin(p, key, revision).closed
  {
    var k :| k in p.entries && p.entries[k].adapter == a;
    var q := Begin(p, key, revision);
    if k != key { assert k in q.entries && q.entries[k].adapter == a; }
  }

  lemma BeginAccounts(p: Pool, key: Key, revision: string)
    requires Threaded(p) && Sound(p) && Accounted(p)
    ensures Accounted(Begin(p, key, revision))
  {
    var q := Begin(p, key, revision);
    forall a | a in q.connected ensures Cached(q, a) || a in q.closed {
      if Cached(p, a) { BeginCaches(p, key, revision, a); }
    }
  }

  lemma AfterCloseKeeps(p: Pool, o: nat)
    requires Inv(p)
    ensures Inv(AfterClose(p, o))
  {
    CloseThreads(p, o);
    CloseUnborn(p, o);
    SameAdapters(p, AfterClose(p, o));
  }

  lemma CloseThreads(p: Pool, o: nat)
    requires Threaded(p) && Vacant(p)
    ensures Threaded(AfterClose(p, o)) && Vacant(AfterClose(p, o))
  {
  }

  lemma CloseUnborn(p: Pool, o: nat)
    requires Unborn(p)
    ensures Unborn(AfterClose(p, o))
  {
  }

  lemma AfterConnectKeeps(p: Pool, o: nat, ok: bool, now: int)
    requires Inv(p)
    ensures Inv(AfterConnect(p, o, ok, now))
  {
    ConnectThreads(p, o, ok, now);
    ConnectUnborn(p, o, ok, now);
    ConnectAccounts(p, o, ok, now);
  }

  lemma ConnectThreads(p: Pool, o: nat, ok: bool, now: int)
    requires Threaded(p) && Vacant(p)
    ensures var q := AfterConnect(p, o, ok, now); Threaded(q) && Vacant(q)
  {
  }

  lemma ConnectUnborn(p: Pool, o: nat, ok: bool, now: int)
    requires Unborn(p)
    ensures Unborn(AfterConnect(p, o, ok, now))
  {
  }

  lemma ConnectAccounts(p: Pool, o: nat, ok: bool, now: int)
    requires Inv(p)
    ensures var q := AfterConnect(p, o, ok, now); Sound(q) && Accounted(q)
  {
    if o in p.opens && p.opens[o].stage.Connecting? && ok {
      var k, b := p.opens[o].key, p.opens[o].stage.adapter;
      assert b !in p.connected && k !in p.entries;
      CachedConnects(p, k, b, p.opens[o].revision, now);
      var q := AfterConnect(p, o, ok, now);
      assert Cached(q, b) by { assert k in q.entries && q.entries[k].adapter == b; }
    } else {
      assert AfterConnect(p, o, ok, now).entries == p.entries;
      assert forall a :: Cached(p, a) ==> Cached(AfterConnect(p, o, ok, now), a);
    }
  }

  lemma CachedConnects(p: Pool, key: Key, b: nat, revision: string, now: int)
    requires key !in p.entries
    ensures forall q: Pool, a :: q.entries == p.entries[key := Entry(b, revision, now)] && Cached(p, a) ==> Cached(q, a)
  {
    forall q: Pool, a | q.entries == p.entries[key := Entry(b, revision, now)] && Cached(p, a) ensures Cached(q, a) {
      var k :| k in p.entries && p.entries[k].adapter == a;
      assert k in q.entries && q.entries[k].adapter == a;
    }
  }

  lemma AfterSettleKeeps(p: Pool, o: nat)
    requires Inv(p)
    ensures Inv(AfterSettle(p, o))
  {
    SettleThreads(p, o);
    SameAdapters(p, AfterSettle(p, o));
  }

  lemma SettleThreads(p: Pool, o: nat)
    requires Threaded(p) && Vacant(p) && Unborn(p)
    ensures var q := AfterSettle(p, o); Threaded(q) && Vacant(q) && Unborn(q)
  {
  }

  lemma RemovedKeeps(p: Pool, keys: set<Key>)
    requires Inv(p)
    ensures Inv(Removed(p, keys))
  {
    RemovedSound(p, keys);
    RemovedAccounts(p, keys);
  }

  lemma RemovedSound(p: Pool, keys: set<Key>)
    requires Sound(p)
    ensures Sound(Removed(p, keys))
  {
    var gone := AdaptersAt(p.entries, keys);
    forall k | k in p.entries && k !in keys ensures p.entries[k].adapter !in gone {
    }
  }

  lemma RemovedAccounts(p: Pool, keys: set<Key>)
    requires Sound(p) && Accounted(p)
    ensures Accounted(Removed(p, keys))
  {
    var q, gone := Removed(p, keys), AdaptersAt(p.entries, keys);
    forall a | a in q.connected ensures Cached(q, a) || a in q.closed {
      if Cached(p, a) {
        var k :| k in p.entries && p.entries[k].adapter == a;
        if k in keys { assert a in gone; } else { assert k in q.entries && q.entries[k].adapter == a; }
      }
    }
    forall a | a in gone ensures a in p.connected && a !in p.closed {
      var k :| k in keys && k in p.entries && p.entries[k].adapter == a;
    }
  }

  /* ----- every interleaving ----- */

  datatype Event =
    | AcquireResumes(key: Key, revision: string, now: int)
    | StaleClosed(open: nat)
    | ConnectEnded(open: nat, ok: bool, now: int)
    | OpenSettled(open: nat)
    | Sweep(now: int, idleMs: int)
    | EvictFinish(connection: string)

  function Step(p: Pool, e: Event): Pool {
    match e
    case AcquireResumes(key, revision, now) => Acquiring(p, key, revision, now).pool
    case StaleClosed(open) => AfterClose(p, open)
    case ConnectEnded(open, ok, now) => AfterConnect(p, open, ok, now)
    case OpenSettled(open) => AfterSettle(p, open)
    case Sweep(now, idleMs) => Removed(p, Idle(p, now, idleMs))
    case EvictFinish(connection) => Removed(p, OfConnection(p, connection))
  }

  function Run(p: Pool, events: seq<Event>): Pool {
    if |events| == 0 then p else Step(Run(p, events[..|events| - 1]), events[|events| - 1])
  }

  lemma StepKeeps(p: Pool, e: Event)
    requires Inv(p)
    ensures Inv(Step(p, e))
  {
    match e
    case AcquireResumes(key, revision, now) =>
      if key in p.entries && p.entries[key].revision == revision {
        HitKeeps(p, key, now);
      } else if key !in p.pending {
        BeginKeeps(p, key, revision);
      }
    case StaleClosed(open) => AfterCloseKeeps(p, open);
    case ConnectEnded(open, ok, now) => AfterConnectKeeps(p, open, ok, now);
    case OpenSettled(open) => AfterSettleKeeps(p, open);
    case Sweep(now, idleMs) => RemovedKeeps(p, Idle(p, now, idleMs));
    case EvictFinish(connection) => RemovedKeeps(p, OfConnection(p, connection));
  }

  lemma {:induction false} RunKeeps(p: Pool, events: seq<Event>)
    requires Inv(p)
    ensures Inv(Run(p, events))
  {
    if |events| > 0 {
      RunKeeps(p, events[..|events| - 1]);
      StepKeeps(Run(p, events[..|events| - 1]), events[|events| - 1]);
    }
  }

  ghost predicate Opening(p: Pool, a: nat) {
    exists o :: o in p.opens && p.opens[o].stage == Connecting(a)
  }

  /** Ownership. Under every interleaving at awaits at most one open is in flight
      for a key, each connected adapter is either cached under exactly one key or
      closed exactly once, and one that is still opening is neither. */
  lemma Ownership(events: seq<Event>)
    ensures var p := Run(EMPTY, events);
            && (forall o, q :: o in p.opens && q in p.opens && p.opens[o].key == p.opens[q].key ==> o == q)
            && (forall a :: a in p.connected ==> (Cached(p, a) <==> a !in p.closed) && p.closed[a] <= 1 && !Opening(p, a))
            && (forall a :: Cached(p, a) || a in p.closed ==> a in p.connected)
            && (forall k, l :: k in p.entries && l in p.entries && p.entries[k].adapter == p.entries[l].adapter ==> k == l)
  {
    RunKeeps(EMPTY, events);
  }

  lemma StepStays(p: Pool, e: Event)
    ensures p.closed <= Step(p, e).closed && p.connected <= Step(p, e).connected
  {
  }

  lemma {:induction false} ClosedStays(p: Pool, events: seq<Event>)
    ensures p.closed <= Run(p, events).closed && p.connected <= Run(p, events).connected
  {
    if |events| > 0 {
      ClosedStays(p, events[..|events| - 1]);
      StepStays(Run(p, events[..|events| - 1]), events[|events| - 1]);
    }
  }

  lemma LiveHit(q: Pool, key: Key, revision: string, now: int)
    requires Sound(q) && Genuine(q) && Acquiring(q, key, revision, now).outcome.Hit?
    ensures var a := Acquiring(q, key, revision, now).outcome.adapter;
            a in q.connected && a !in q.closed && a in q.made && q.made[a] == Made(key, revision)
  {
  }

  /** A cache hit is live and current: the adapter was created for this key under
      the revision just resolved, is connected, and was never closed before. */
  lemma HitIsLive(before: seq<Event>, after: seq<Event>, key: Key, revision: string, now: int)
    ensures var p := Run(EMPTY, before);
            var q := Run(p, after);
            var r := Acquiring(q, key, revision, now);
            r.outcome.Hit? ==>
              && r.outcome.adapter in q.connected && r.outcome.adapter !in q.closed && r.outcome.adapter !in p.closed
              && r.outcome.adapter in q.made && q.made[r.outcome.adapter] == Made(key, revision)
  {
    var p := Run(EMPTY, before);
    RunKeeps(EMPTY, before);
    RunKeeps(p, after);
    RunKeepsGenuine(EMPTY, before);
    RunKeepsGenuine(p, after);
    ClosedStays(p, after);
    if Acquiring(Run(p, after), key, revision, now).outcome.Hit? {
      LiveHit(Run(p, after), key, revision, now);
    }
  }

  lemma SweepAt(q: Pool, key: Key, later: int, idleMs: int)
    requires Sound(q) && key in q.entries
    ensures var swept, idle := Removed(q, Idle(q, later, idleMs)), later - q.entries[key].lastUsedAt > idleMs;
            && (key in swept.entries <==> !idle)
            && (q.entries[key].adapter in swept.closed <==> idle)
  {
    assert q.entries[key].adapter in AdaptersAt(q.entries, Idle(q, later, idleMs)) <==> key in Idle(q, later, idleMs);
  }

  /** A sweep closes an adapter exactly when nobody used it for longer than the
      idle time: a hit keeps it alive until then. */
  lemma SweepSparesRecent(p: Pool, key: Key, revision: string, now: int, later: int, idleMs: int)
    requires Sound(p) && Acquiring(p, key, revision, now).outcome.Hit?
    ensures var r := Acquiring(p, key, revision, now);
            var q := Removed(r.pool, Idle(r.pool, later, idleMs));
            && (key in q.entries <==> later - now <= idleMs)
            && (r.outcome.adapter in q.closed <==> later - now > idleMs)
  {
    var q := Acquiring(p, key, revision, now).pool;
    assert Sound(q);
    SweepAt(q, key, later, idleMs);
  }

  predicate SameRequest(a: Open, b: Open) {
    a.key == b.key && a.revision == b.revision
  }

  // A step only starts opens with new numbers.
  lemma StepOpens(p: Pool, e: Event, o: nat)
    ensures p.nextOpen <= Step(p, e).nextOpen
    ensures o in Step(p, e).opens && o < p.nextOpen ==> o in p.opens && SameRequest(p.opens[o], Step(p, e).opens[o])
  {
  }

  lemma {:induction false} OldOpens(p: Pool, events: seq<Event>, o: nat)
    ensures p.nextOpen <= Run(p, events).nextOpen
    ensures o in Run(p, events).opens && o < p.nextOpen ==> o in p.opens && SameRequest(p.opens[o], Run(p, events).opens[o])
  {
    if |events| > 0 {
      OldOpens(p, events[..|events| - 1], o);
      StepOpens(Run(p, events[..|events| - 1]), events[|events| - 1], o);
    }
  }

  lemma OpensAreSeen(p: Pool, connection: string)
    requires Threaded(p)
    ensures forall o :: o in InFlight(p, connection) <==> o in p.opens && p.opens[o].key.connection == connection
  {
    forall o | o in p.opens && p.opens[o].key.connection == connection ensures o in InFlight(p, connection) {
      assert p.pending[p.opens[o].key] == o;
    }
  }

  lemma LaterOpens(p: Pool, during: seq<Event>, connection: string)
    requires Threaded(p) && InFlight(p, connection) !! Run(p, during).opens.Keys
    ensures forall o :: o in Run(p, during).opens && Run(p, during).opens[o].key.connection == connection ==> o >= p.nextOpen
  {
    OpensAreSeen(p, connection);
    var q := Run(p, during);
    forall o | o in q.opens && q.opens[o].key.connection == connection ensures o >= p.nextOpen {
      OldOpens(p, during, o);
    }
  }

  /** An eviction catches what was in flight. Once it has waited for the opens it
      saw at its start, no adapter of the connection is left in the cache, and an
      open of it that is still in flight began after the eviction did. */
  lemma EvictionCatchesOpens(before: seq<Event>, during: seq<Event>, connection: string)
    requires var p := Run(EMPTY, before); InFlight(p, connection) !! Run(p, during).opens.Keys
    ensures var p := Run(EMPTY, before);
            var q := Removed(Run(p, during), OfConnection(Run(p, during), connection));
            && (forall k :: k in q.entries ==> k.connection != connection)
            && (forall o :: o in q.opens && q.opens[o].key.connection == connection ==> o >= p.nextOpen)
  {
    RunKeeps(EMPTY, before);
    LaterOpens(Run(EMPTY, before), during, connection);
  }

  /** It touches nothing else: the entries of every other connection stay cached as
      they are, and exactly the adapters of this connection are closed. */
  lemma EvictionSparesOthers(q: Pool, connection: string)
    requires Sound(q)
    ensures var r := Removed(q, OfConnection(q, connection));
            && (forall k :: k in r.entries <==> k in q.entries && k.connection != connection)
            && (forall k :: k in r.entries ==> r.entries[k] == q.entries[k])
            && (forall a :: r.closed[a] == q.closed[a] + if a in AdaptersAt(q.entries, OfConnection(q, connection)) then 1 else 0)
            && (forall k :: k in q.entries ==> (q.entries[k].adapter in r.closed <==> k.connection == connection))
            && r.pending == q.pending && r.opens == q.opens
  {
    var keys := OfConnection(q, connection);
    forall k | k in q.entries
      ensures q.entries[k].adapter in AdaptersAt(q.entries, keys) <==> k.connection == connection
    {
      if j :| j in keys && q.entries[j].adapter == q.entries[k].adapter { assert j == k; }
    }
  }

  /** What an acquire gets, in any pool: the cached adapter if and only if one is
      cached under the revision resolved, which then stays cached and counts as used
      now; else the open in flight, and nothing changes; else an open of its own, for
      which only the entry of this key goes and its adapter is closed. */
  lemma AcquireExactly(p: Pool, key: Key, revision: string, now: int)
    requires Threaded(p)
    ensures var r, cached := Acquiring(p, key, revision, now), key in p.entries && p.entries[key].revision == revision;
            && (r.outcome.Hit? <==> cached)
            && (cached ==> r.outcome == Hit(p.entries[key].adapter) && r.pool.opens == p.opens && r.pool.closed == p.closed
                           && r.pool.entries == p.entries[key := Entry(p.entries[key].adapter, revision, now)])
            && (r.outcome.Join? <==> !cached && key in p.pending)
            && (r.outcome.Join? ==> r.outcome.open == p.pending[key] && r.pool == p)
            && (r.outcome.Started? ==> r.outcome.open !in p.opens && r.outcome.open in r.pool.opens
                                       && r.pool.opens[r.outcome.open].key == key
                                       && r.pool.opens[r.outcome.open].revision == revision
                                       && r.pool.pending == p.pending[key := r.outcome.open])
            && (r.outcome.Started? ==>
                  && (forall k :: k in r.pool.entries <==> k in p.entries && k != key)
                  && (forall k :: k in r.pool.entries ==> r.pool.entries[k] == p.entries[k])
                  && (forall o :: o in p.opens ==> o in r.pool.opens && r.pool.opens[o] == p.opens[o])
                  && r.pool.closed == p.closed + if key in p.entries then multiset{p.entries[key].adapter} else multiset{})
  {
    assert p.nextOpen !in p.opens;
  }

  /** An adapter that connected is what the next request of its revision gets. */
  lemma ConnectedIsHit(p: Pool, o: nat, now: int, later: int)
    requires o in p.opens && p.opens[o].stage.Connecting?
    ensures var a := p.opens[o];
            Acquiring(AfterConnect(p, o, true, now), a.key, a.revision, later).outcome == Hit(a.stage.adapter)
  {
  }

  /** What an open hands out to its caller and to those who joined it: a connected
      adapter made for the key and the revision the open was started with. */
  lemma OpenHandsOut(before: seq<Event>, after: seq<Event>, o: nat, a: nat)
    requires var p, q := Run(EMPTY, before), Run(Run(EMPTY, before), after);
             o in p.opens && o in q.opens && q.opens[o].stage == Resolved(a)
    ensures var p, q := Run(EMPTY, before), Run(Run(EMPTY, before), after);
            a in q.connected && a in q.made && q.made[a] == Made(p.opens[o].key, p.opens[o].revision)
  {
    var p := Run(EMPTY, before);
    RunKeeps(EMPTY, before);
    RunKeeps(p, after);
    RunKeepsGenuine(EMPTY, before);
    RunKeepsGenuine(p, after);
    OldOpens(p, after, o);
  }

  lemma JoinedKey(p: Pool, key: Key, revision: string, now: int, o: nat)
    requires Threaded(p) && Acquiring(p, key, revision, now).outcome == Join(o)
    ensures o in p.opens && p.opens[o].key == key
  {
  }

  /** Joining an open does not compare revisions. Whatever happens in between, a
      request that joined gets an adapter for the revision it resolved if and only
      if the open it joined was started for that revision. */
  lemma JoinIsCurrentExactly(before: seq<Event>, after: seq<Event>, key: Key, revision: string, now: int, o: nat, a: nat)
    requires Acquiring(Run(EMPTY, before), key, revision, now).outcome == Join(o)
    requires var q := Run(Run(EMPTY, before), after); o in q.opens && q.opens[o].stage == Resolved(a)
    ensures var p, q := Run(EMPTY, before), Run(Run(EMPTY, before), after);
            && o in p.opens && a in q.made && q.made[a].key == key
            && (q.made[a] == Made(key, revision) <==> p.opens[o].revision == revision)
  {
    RunKeeps(EMPTY, before);
    JoinedKey(Run(EMPTY, before), key, revision, now, o);
    OpenHandsOut(before, after, o, a);
  }

  /** A join that is not current: a request that resolved a newer revision gets the
      adapter of the older, and only the next request replaces it. */
  lemma JoinMayBeStale(key: Key, r1: string, r2: string, now: int)
    requires r1 != r2
    ensures var p := Acquiring(EMPTY, key, r1, now).pool;
            var settled := Run(p, [ConnectEnded(0, true, now), OpenSettled(0)]);
            && Acquiring(p, key, r2, now).outcome == Join(0)
            && settled.entries == map[key := Entry(0, r1, now)]
            && Acquiring(settled, key, r2, now).outcome == Started(1)
            && Acquiring(settled, key, r2, now).pool.closed == multiset{0}
  {
    var p := Acquiring(EMPTY, key, r1, now).pool;
    var events := [ConnectEnded(0, true, now), OpenSettled(0)];
    assert events[..1] == [ConnectEnded(0, true, now)] && events[..1][..0] == [];
    assert Run(p, events[..1]) == AfterConnect(p, 0, true, now);
    assert Run(p, events) == AfterSettle(AfterConnect(p, 0, true, now), 0);
  }
}
