// Hot reload on the worker tables: InboundManager (src/inbound.rs),
// OutboundDispatcher (src/outbound.rs) and apply_account_diff (src/plugin.rs).
// The two tables share the health records of one map.
module PluginModel {
  import opened Wrappers
  import opened Reload

  // The cursor store cannot be opened; the credential store has no entry for the account
  // about to be spawned; the managers were never started; its queue file cannot be opened.
  datatype ReloadError =
    | StoreUnavailable
    | NoCredential(instance: string)
    | NotRunning(instance: string)
    | QueueUnavailable(instance: string)

  // One account's health record, shared by reference.
  class AccountHealth {
    var consecutiveFailures: nat
    var messagesSeenTotal: nat
    var outboundSentTotal: nat
    var outboundFailedTotal: nat

    constructor ()
    {
      consecutiveFailures, messagesSeenTotal, outboundSentTotal, outboundFailedTotal := 0, 0, 0, 0;
    }
  }

  class HealthMap {
    var entries: map<string, AccountHealth>

    constructor ()
      ensures entries == map[]
    {
      entries := map[];
    }
  }

  // A spawned worker: the config it was given and the record it reports to.
  class Worker {
    const account: Account
    const health: AccountHealth

    constructor (account: Account, health: AccountHealth)
      ensures this.account == account && this.health == health
    {
      this.account, this.health := account, health;
    }
  }

  class InboundManager {
    var workers: map<string, Worker>
    const health: HealthMap

    constructor (health: HealthMap)
      ensures workers == map[] && this.health == health
    {
      workers, this.health := map[], health;
    }

    method RemoveAccount(instance: string) returns (found: bool)
      modifies this, health
      ensures found == (instance in old(workers))
      ensures workers == old(workers) - {instance}
      ensures health.entries == if found then old(health.entries) - {instance} else old(health.entries)
    {
      if instance !in workers {
        assert workers == workers - {instance};
        return false;
      }
      workers := workers - {instance};
      health.entries := health.entries - {instance};
      return true;
    }

    // A new worker gets a new health record.
    method AddAccount(account: Account) returns (added: bool)
      modifies this, health
      ensures added == (account.instance !in old(workers))
      ensures !added ==> workers == old(workers) && health.entries == old(health.entries)
      ensures added ==>
        account.instance in workers && account.instance in health.entries
        && var w := workers[account.instance];
           fresh(w) && fresh(w.health) && w.account == account
           && workers == old(workers)[account.instance := w]
           && health.entries == old(health.entries)[account.instance := w.health]
    {
      if account.instance in workers {
        return false;
      }
      var h := new AccountHealth();
      health.entries := health.entries[account.instance := h];
      var w := new Worker(account, h);
      workers := workers[account.instance := w];
      return true;
    }
  }

  class OutboundDispatcher {
    var workers: map<string, Worker>
    // DispatcherCore: the address each instance enqueues from.
    var instances: map<string, string>
    const health: HealthMap

    constructor (health: HealthMap)
      ensures workers == map[] && instances == map[] && this.health == health
    {
      workers, instances, this.health := map[], map[], health;
    }

    method RemoveAccount(instance: string) returns (found: bool)
      modifies this
      ensures found == (instance in old(workers))
      ensures workers == old(workers) - {instance}
      ensures instances == if found then old(instances) - {instance} else old(instances)
    {
      if instance !in workers {
        assert workers == workers - {instance};
        return false;
      }
      workers := workers - {instance};
      instances := instances - {instance};
      return true;
    }

    // A new worker joins the record that is there, and makes one only if none is.
    // opens: whether its queue file can be opened.
    method AddAccount(account: Account, opens: bool) returns (r: Result<bool, ReloadError>)
      modifies this, health
      ensures r == if account.instance in old(workers) then Ok(false)
                   else if opens then Ok(true) else Err(QueueUnavailable(account.instance))
      ensures r != Ok(true) ==>
        workers == old(workers) && instances == old(instances) && health.entries == old(health.entries)
      ensures r == Ok(true) ==>
        account.instance in workers && account.instance in health.entries
        && var w := workers[account.instance];
           fresh(w) && w.account == account && w.health == health.entries[account.instance]
           && workers == old(workers)[account.instance := w]
           && instances == old(instances)[account.instance := account.address]
           && (account.instance in old(health.entries) ==> health.entries == old(health.entries))
           && (account.instance !in old(health.entries) ==>
                 fresh(w.health) && health.entries == old(health.entries)[account.instance := w.health])
    {
      if account.instance in workers {
        return Ok(false);
      }
      if !opens {
        return Err(QueueUnavailable(account.instance));
      }
      instances := instances[account.instance := account.address];
      if account.instance !in health.entries {
        var h := new AccountHealth();
        health.entries := health.entries[account.instance := h];
      }
      var w := new Worker(account, health.entries[account.instance]);
      workers := workers[account.instance := w];
      return Ok(true);
    }
  }

  // What the two managers and the health map hold at one moment.
  datatype Tables = Tables(
    inbound: map<string, Worker>,
    outbound: map<string, Worker>,
    addresses: map<string, string>,
    health: map<string, AccountHealth>)

  // Instance i runs on neither side, or on both with the same account, enqueues from
  // that account's address and has both workers report to the record in the map.
  ghost predicate Coherent(t: Tables, i: string) {
    (i in t.inbound <==> i in t.outbound)
    && (i in t.inbound <==> i in t.addresses)
    && (i in t.inbound <==> i in t.health)
    && (i in t.inbound ==>
          t.inbound[i].account == t.outbound[i].account
          && t.addresses[i] == t.inbound[i].account.address
          && t.inbound[i].health == t.outbound[i].health == t.health[i])
  }

  ghost predicate Consistent(t: Tables) {
    forall i :: Coherent(t, i)
  }

  function Accounts(t: Tables): Running {
    map i | i in t.inbound :: t.inbound[i].account
  }

  // The worker objects and the health records of every other instance are those of before.
  ghost predicate Untouched(t: Tables, t': Tables, ids: set<string>) {
    t.inbound - ids == t'.inbound - ids
    && t.outbound - ids == t'.outbound - ids
    && t.addresses - ids == t'.addresses - ids
    && t.health - ids == t'.health - ids
  }

  lemma UntouchedTrans(t: Tables, t': Tables, t'': Tables, ids: set<string>, more: set<string>)
    requires Untouched(t, t', ids) && Untouched(t', t'', more)
    ensures Untouched(t, t'', ids + more)
  {
    DropBoth(t.inbound, t'.inbound, t''.inbound, ids, more);
    DropBoth(t.outbound, t'.outbound, t''.outbound, ids, more);
    DropBoth(t.addresses, t'.addresses, t''.addresses, ids, more);
    DropBoth(t.health, t'.health, t''.health, ids, more);
  }

  lemma DropBoth<T>(m: map<string, T>, m': map<string, T>, m'': map<string, T>, ids: set<string>, more: set<string>)
    requires m - ids == m' - ids && m' - more == m'' - more
    ensures m - (ids + more) == m'' - (ids + more)
  {
    assert m - (ids + more) == (m - ids) - more;
    assert m' - (ids + more) == (m' - ids) - more;
    assert m' - (ids + more) == (m' - more) - ids;
    assert m'' - (ids + more) == (m'' - more) - ids;
  }

  // remove_account on both sides. The inbound side owns the health record.
  function Stopped(t: Tables, i: string): Tables {
    Tables(
      t.inbound - {i},
      t.outbound - {i},
      if i in t.outbound then t.addresses - {i} else t.addresses,
      if i in t.inbound then t.health - {i} else t.health)
  }

  lemma StopKeeps(t: Tables, i: string)
    requires Consistent(t)
    ensures Consistent(Stopped(t, i))
    ensures Accounts(Stopped(t, i)) == Accounts(t) - {i}
    ensures Untouched(t, Stopped(t, i), {i})
  {
    var t' := Stopped(t, i);
    assert Coherent(t, i);
    forall j ensures Coherent(t', j) {
      assert Coherent(t, j);
    }
    assert Coherent(t', i);
    assert t.addresses - {i} == t'.addresses - {i};
    assert t.health - {i} == t'.health - {i};
  }

  // add_account on both sides, when neither runs the account's instance.
  ghost predicate Started(t: Tables, t': Tables, account: Account) {
    var i := account.instance;
    i in t'.inbound && i in t'.outbound && i in t'.health
    && t'.inbound[i].account == account == t'.outbound[i].account
    && t'.inbound[i].health == t'.health[i] == t'.outbound[i].health
    && t' == Tables(t.inbound[i := t'.inbound[i]], t.outbound[i := t'.outbound[i]],
                    t.addresses[i := account.address], t.health[i := t'.health[i]])
  }

  lemma StartKeeps(t: Tables, t': Tables, account: Account)
    requires Consistent(t) && Started(t, t', account)
    ensures Consistent(t')
    ensures Accounts(t') == Accounts(t)[account.instance := account]
    ensures Untouched(t, t', {account.instance})
  {
    var i := account.instance;
    forall j ensures Coherent(t', j) {
      if j != i {
        assert Coherent(t, j);
      }
    }
    assert t.inbound - {i} == t'.inbound - {i} && t.outbound - {i} == t'.outbound - {i};
    assert t.addresses - {i} == t'.addresses - {i} && t.health - {i} == t'.health - {i};
  }

  lemma NothingToStop(t: Tables, i: string)
    requires t == Tables(map[], map[], map[], map[])
    ensures Stopped(t, i) == t
  {
  }

  // --- Starting ---

  ghost predicate InboundSlot(t: Tables, a: Account) {
    a.instance in t.inbound && a.instance in t.health
    && t.inbound[a.instance].account == a && t.inbound[a.instance].health == t.health[a.instance]
  }

  ghost predicate InboundRuns(t: Tables, cfg: seq<Account>) {
    t.inbound.Keys == t.health.Keys == Ids(cfg) && forall a :: a in cfg ==> InboundSlot(t, a)
  }

  ghost predicate OutboundSlot(t: Tables, a: Account) {
    a.instance in t.outbound && a.instance in t.addresses && a.instance in t.health
    && t.outbound[a.instance].account == a && t.addresses[a.instance] == a.address
    && t.outbound[a.instance].health == t.health[a.instance]
  }

  ghost predicate OutboundRuns(t: Tables, cfg: seq<Account>) {
    t.outbound.Keys == t.addresses.Keys == Ids(cfg) && forall a :: a in cfg ==> OutboundSlot(t, a)
  }

  lemma BothRun(t: Tables, cfg: seq<Account>)
    requires InboundRuns(t, cfg) && OutboundRuns(t, cfg) && DistinctInstances(cfg)
    ensures Consistent(t) && ServesExactly(Accounts(t), cfg)
  {
    forall i ensures Coherent(t, i) && At(Accounts(t), i) == FindAccount(cfg, i) {
      assert i in t.inbound.Keys <==> i in Ids(cfg);
      assert i in t.outbound.Keys <==> i in Ids(cfg);
      assert i in t.addresses.Keys <==> i in Ids(cfg);
      assert i in t.health.Keys <==> i in Ids(cfg);
      if i in Ids(cfg) {
        var a :| a in cfg && a.instance == i;
        FindMember(cfg, a);
        assert InboundSlot(t, a) && OutboundSlot(t, a);
      } else {
        assert forall a :: a in cfg ==> a.instance in Ids(cfg);
      }
    }
  }

  lemma IdsPrefix(cfg: seq<Account>, k: nat)
    requires k < |cfg| && DistinctInstances(cfg)
    ensures cfg[..k + 1] == cfg[..k] + [cfg[k]]
    ensures Ids(cfg[..k + 1]) == Ids(cfg[..k]) + {cfg[k].instance} && cfg[k].instance !in Ids(cfg[..k])
    ensures cfg[k] in cfg
  {
    assert cfg[..k + 1] == cfg[..k] + [cfg[k]];
    assert cfg[k] in cfg[..k + 1];
    forall a | a in cfg[..k] ensures a in cfg[..k + 1] && a.instance != cfg[k].instance {
    }
  }

  // The inbound worker of the account runs with a new record, and nothing else changed:
  // the outbound side could not be started.
  ghost predicate HalfStarted(t: Tables, t': Tables, account: Account) {
    var i := account.instance;
    i in t'.inbound && i in t'.health
    && t'.inbound[i].account == account && t'.inbound[i].health == t'.health[i]
    && t' == t.(inbound := t.inbound[i := t'.inbound[i]], health := t.health[i := t'.health[i]])
  }

  // All is in agreement, except for the instance whose queue file could not be opened.
  ghost predicate Sound(t: Tables, stop: Option<ReloadError>) {
    forall i :: stop == Some(QueueUnavailable(i)) || Coherent(t, i)
  }

  lemma HalfStartLeaves(t: Tables, t': Tables, account: Account)
    requires Consistent(t) && HalfStarted(t, t', account)
    ensures Sound(t', Some(QueueUnavailable(account.instance)))
    ensures Accounts(t') == Accounts(t)[account.instance := account]
    ensures Untouched(t, t', {account.instance})
  {
    forall j | j != account.instance ensures Coherent(t', j) {
      assert Coherent(t, j);
    }
  }

  // What a start or a reload meets: whether the cursor store opens, the instances with a
  // credential, and those whose queue opens.
  datatype World = World(store: bool, creds: set<string>, queues: set<string>)

  // Nothing in the way of running this config.
  predicate Smooth(w: World, cfg: seq<Account>) {
    w.store && Ids(cfg) <= w.creds * w.queues
  }

  // The accounts that run on the inbound side, and the error that ended the reload.
  datatype Progress = Progress(run: Running, stop: Option<ReloadError>)

  // up: the managers were started.
  function SpawnStep(up: bool, run: Running, a: Account, w: World): Progress {
    if a.instance !in w.creds then Progress(run, Some(NoCredential(a.instance)))
    else if !up then Progress(run, Some(NotRunning(a.instance)))
    else if a.instance in run then Progress(run, None)
    else
      Progress(run[a.instance := a],
               if a.instance in w.queues then None else Some(QueueUnavailable(a.instance)))
  }

  function SpawnRun(up: bool, run: Running, added: seq<Account>, w: World): Progress
    decreases |added|
  {
    if added == [] then Progress(run, None)
    else
      var p := SpawnStep(up, run, added[0], w);
      if p.stop.Some? then p else SpawnRun(up, p.run, added[1..], w)
  }

  // A changed account is down before it is spawned from the new config.
  function RespawnRun(up: bool, run: Running, changed: seq<Account>, w: World): Progress
    decreases |changed|
  {
    if changed == [] then Progress(run, None)
    else
      var p := SpawnStep(up, run - {changed[0].instance}, changed[0], w);
      if p.stop.Some? then p else RespawnRun(up, p.run, changed[1..], w)
  }

  // One account more: without a credential, before the managers are started, and with a
  // queue that does not open, the reload ends; the last leaves its inbound worker. An
  // instance that runs is left alone when it is added, and replaced when it is changed.
  lemma OneMoreSpawn(up: bool, run: Running, a: Account, w: World)
    ensures var error := if a.instance !in w.creds then Some(NoCredential(a.instance))
                         else if !up then Some(NotRunning(a.instance))
                         else None;
      var queue := if a.instance in w.queues then None else Some(QueueUnavailable(a.instance));
      SpawnRun(up, run, [a], w)
      == (if error.Some? then Progress(run, error)
          else if a.instance in run then Progress(run, None)
          else Progress(run[a.instance := a], queue))
      && RespawnRun(up, run, [a], w)
         == (if error.Some? then Progress(run - {a.instance}, error)
             else Progress((run - {a.instance})[a.instance := a], queue))
  {
    assert [a][1..] == [];
  }

  // Accounts are taken in their order, and the first error ends the reload.
  lemma {:induction false} SpawnsInTurn(up: bool, run: Running, a: seq<Account>, b: seq<Account>, w: World)
    ensures var p := SpawnRun(up, run, a, w);
      SpawnRun(up, run, a + b, w) == if p.stop.Some? then p else SpawnRun(up, p.run, b, w)
    decreases |a|
  {
    if a == [] {
      assert a + b == b;
    } else {
      assert (a + b)[1..] == a[1..] + b;
      SpawnsInTurn(up, SpawnStep(up, run, a[0], w).run, a[1..], b, w);
    }
  }

  lemma {:induction false} RespawnsInTurn(up: bool, run: Running, a: seq<Account>, b: seq<Account>, w: World)
    ensures var p := RespawnRun(up, run, a, w);
      RespawnRun(up, run, a + b, w) == if p.stop.Some? then p else RespawnRun(up, p.run, b, w)
    decreases |a|
  {
    if a == [] {
      assert a + b == b;
    } else {
      assert (a + b)[1..] == a[1..] + b;
      RespawnsInTurn(up, SpawnStep(up, run - {a[0].instance}, a[0], w).run, a[1..], b, w);
    }
  }

  // removed, then changed, then added, up to the first error.
  function DiffRun(up: bool, run: Running, d: AccountDiff, w: World): Progress {
    var p := RespawnRun(up, TearDown(run, d.removed), d.changed, w);
    if p.stop.Some? then p else SpawnRun(up, p.run, d.added, w)
  }

  // A diff without members ends before the store is opened.
  function ReloadRun(up: bool, run: Running, d: AccountDiff, w: World): Progress {
    if !IsEmpty(d) && !w.store then Progress(run, Some(StoreUnavailable)) else DiffRun(up, run, d, w)
  }

  class EmailPlugin {
    // Set when the plugin is built and never replaced.
    const cfg: seq<Account>
    const enabled: bool
    // Both managers were started.
    var armed: bool
    const inbound: InboundManager
    const outbound: OutboundDispatcher
    const health: HealthMap

    constructor (cfg: seq<Account>, enabled: bool)
      ensures this.cfg == cfg && this.enabled == enabled && !armed
      ensures Ready() && fresh(inbound) && fresh(outbound) && fresh(health)
    {
      this.cfg, this.enabled, armed := cfg, enabled, false;
      var h := new HealthMap();
      health := h;
      inbound := new InboundManager(h);
      outbound := new OutboundDispatcher(h);
    }

    // Both managers were handed the one health map.
    ghost predicate Wired() {
      inbound.health == health && outbound.health == health
    }

    ghost function Now(): Tables
      reads inbound, outbound, health
    {
      Tables(inbound.workers, outbound.workers, outbound.instances, health.entries)
    }

    // Nothing runs before the managers are started.
    ghost predicate Ready()
      reads this`armed, inbound, outbound, health
    {
      Wired() && Consistent(Now()) && (armed || Now() == Tables(map[], map[], map[], map[]))
    }

    // start: the managers are armed only for a plugin that is enabled and has accounts.
    // When a queue file cannot be opened the start has failed halfway.
    method Start(w: World) returns (stop: Option<ReloadError>)
      requires Ready() && !armed && DistinctInstances(cfg)
      modifies this`armed, inbound, outbound, health
      ensures !enabled || cfg == [] ==> stop == None && !armed && Now() == old(Now())
      ensures enabled && cfg != [] && !w.store ==> stop == Some(StoreUnavailable) && !armed && Now() == old(Now())
      ensures enabled && cfg != [] && w.store && Ids(cfg) <= w.queues ==>
        stop == None && armed && Ready() && ServesExactly(Accounts(Now()), cfg)
      ensures enabled && cfg != [] && w.store && !(Ids(cfg) <= w.queues) ==> stop.Some? && stop.value.QueueUnavailable?
    {
      if !enabled || cfg == [] {
        return None;
      }
      if !w.store {
        return Some(StoreUnavailable);
      }
      StartInbound();
      stop := StartOutbound(w);
      if stop.None? {
        BothRun(Now(), cfg);
        armed := true;
      }
    }

    method StartInbound()
      requires Wired() && Now() == Tables(map[], map[], map[], map[]) && DistinctInstances(cfg)
      modifies inbound, health
      ensures InboundRuns(Now(), cfg) && outbound.workers == map[] && outbound.instances == map[]
    {
      for k := 0 to |cfg|
        invariant InboundRuns(Now(), cfg[..k]) && outbound.workers == map[] && outbound.instances == map[]
      {
        IdsPrefix(cfg, k);
        var _ := inbound.AddAccount(cfg[k]);
        forall a | a in cfg[..k + 1] ensures InboundSlot(Now(), a) {
          if a != cfg[k] {
            assert a in cfg[..k] && a.instance in Ids(cfg[..k]);
          }
        }
      }
      assert cfg[..|cfg|] == cfg;
    }

    method StartOutbound(w: World) returns (stop: Option<ReloadError>)
      requires Wired() && InboundRuns(Now(), cfg) && outbound.workers == map[] && outbound.instances == map[]
      requires DistinctInstances(cfg)
      modifies outbound, health
      ensures stop.None? <==> Ids(cfg) <= w.queues
      ensures stop.Some? ==> stop.value.QueueUnavailable?
      ensures stop.None? ==> InboundRuns(Now(), cfg) && OutboundRuns(Now(), cfg)
    {
      for k := 0 to |cfg|
        invariant InboundRuns(Now(), cfg) && OutboundRuns(Now(), cfg[..k]) && Ids(cfg[..k]) <= w.queues
      {
        IdsPrefix(cfg, k);
        assert InboundSlot(Now(), cfg[k]);
        ghost var before := Now();
        var added := outbound.AddAccount(cfg[k], cfg[k].instance in w.queues);
        if added.Err? {
          assert cfg[k].instance in Ids(cfg);
          return Some(added.error);
        }
        forall a | a in cfg ensures InboundSlot(Now(), a) {
          assert InboundSlot(before, a);
        }
        forall a | a in cfg[..k + 1] ensures OutboundSlot(Now(), a) {
          if a != cfg[k] {
            assert a in cfg[..k] && OutboundSlot(before, a) && a.instance in Ids(cfg[..k]);
          }
        }
      }
      assert cfg[..|cfg|] == cfg;
      return None;
    }

    // Outbound first, so that a job in flight is on disk before its reader goes.
    method StopAccount(instance: string)
      requires Ready()
      modifies inbound, outbound, health
      ensures Now() == Stopped(old(Now()), instance) && Ready()
    {
      StopKeeps(Now(), instance);
      if !armed {
        NothingToStop(Now(), instance);
        return;
      }
      var _ := outbound.RemoveAccount(instance);
      var _ := inbound.RemoveAccount(instance);
    }

    // Inbound first: when the queue file cannot be opened, the inbound worker runs on.
    method SpawnAccount(account: Account, w: World) returns (stop: Option<ReloadError>)
      requires Ready()
      modifies inbound, outbound, health
      ensures var i := account.instance;
        if i !in w.creds then stop == Some(NoCredential(i)) && Now() == old(Now())
        else if !armed then stop == Some(NotRunning(i)) && Now() == old(Now())
        else if i in old(inbound.workers) then stop == None && Now() == old(Now())
        else
          i in inbound.workers && i in health.entries && fresh(inbound.workers[i]) && fresh(health.entries[i])
          && (if i in w.queues then stop == None && Started(old(Now()), Now(), account) && fresh(outbound.workers[i])
              else stop == Some(QueueUnavailable(i)) && HalfStarted(old(Now()), Now(), account))
    {
      assert Coherent(Now(), account.instance);
      if account.instance !in w.creds {
        return Some(NoCredential(account.instance));
      }
      if !armed {
        return Some(NotRunning(account.instance));
      }
      var _ := inbound.AddAccount(account);
      var added := outbound.AddAccount(account, account.instance in w.queues);
      if added.Err? {
        return Some(added.error);
      }
      return None;
    }

    method SpawnOneMore(account: Account, w: World) returns (stop: Option<ReloadError>)
      requires Ready()
      modifies inbound, outbound, health
      ensures Sound(Now(), stop) && (stop.None? ==> Ready()) && Untouched(old(Now()), Now(), {account.instance})
      ensures Progress(Accounts(Now()), stop) == SpawnStep(armed, old(Accounts(Now())), account, w)
    {
      ghost var was := Now();
      stop := SpawnAccount(account, w);
      if account.instance in w.creds && armed && account.instance !in was.inbound {
        if stop.None? {
          StartKeeps(was, Now(), account);
        } else {
          HalfStartLeaves(was, Now(), account);
        }
      }
    }

    method StopAll(removed: seq<string>)
      requires Ready()
      modifies inbound, outbound, health
      ensures Ready()
      ensures Accounts(Now()) == TearDown(old(Accounts(Now())), removed)
      ensures Untouched(old(Now()), Now(), InstanceSet(removed))
    {
      ghost var was := Now();
      for k := 0 to |removed|
        invariant Ready()
        invariant Accounts(Now()) == TearDown(Accounts(was), removed[..k])
        invariant Untouched(was, Now(), InstanceSet(removed[..k]))
      {
        ghost var before := Now();
        StopAccount(removed[k]);
        StopKeeps(before, removed[k]);
        UntouchedTrans(was, before, Now(), InstanceSet(removed[..k]), {removed[k]});
        InstanceSetMore(removed, k);
      }
      assert removed[..|removed|] == removed;
    }

    // A changed account: stop it, then spawn it from the new config.
    method RespawnOne(account: Account, w: World) returns (stop: Option<ReloadError>)
      requires Ready()
      modifies inbound, outbound, health
      ensures Sound(Now(), stop) && (stop.None? ==> Ready()) && Untouched(old(Now()), Now(), {account.instance})
      ensures Progress(Accounts(Now()), stop) == SpawnStep(armed, old(Accounts(Now())) - {account.instance}, account, w)
    {
      ghost var was := Now();
      StopAccount(account.instance);
      ghost var down := Now();
      StopKeeps(was, account.instance);
      stop := SpawnOneMore(account, w);
      UntouchedTrans(was, down, Now(), {account.instance}, {account.instance});
      assert {account.instance} + {account.instance} == {account.instance};
    }

    method RespawnAll(changed: seq<Account>, w: World) returns (stop: Option<ReloadError>)
      requires Ready()
      modifies inbound, outbound, health
      ensures Sound(Now(), stop) && (stop.None? ==> Ready()) && Untouched(old(Now()), Now(), Ids(changed))
      ensures Progress(Accounts(Now()), stop) == RespawnRun(armed, old(Accounts(Now())), changed, w)
    {
      ghost var was := Now();
      var rest := changed;
      while rest != []
        invariant Ready() && Ids(rest) <= Ids(changed)
        invariant RespawnRun(armed, Accounts(was), changed, w) == RespawnRun(armed, Accounts(Now()), rest, w)
        invariant Untouched(was, Now(), Ids(changed))
        decreases |rest|
      {
        ghost var before := Now();
        stop := RespawnOne(rest[0], w);
        IdsCons(rest);
        UntouchedMore(was, before, Now(), Ids(changed), rest[0].instance);
        if stop.Some? {
          return;
        }
        rest := rest[1..];
      }
      return None;
    }

    method SpawnAll(added: seq<Account>, w: World) returns (stop: Option<ReloadError>)
      requires Ready()
      modifies inbound, outbound, health
      ensures Sound(Now(), stop) && (stop.None? ==> Ready()) && Untouched(old(Now()), Now(), Ids(added))
      ensures Progress(Accounts(Now()), stop) == SpawnRun(armed, old(Accounts(Now())), added, w)
    {
      ghost var was := Now();
      var rest := added;
      while rest != []
        invariant Ready() && Ids(rest) <= Ids(added)
        invariant SpawnRun(armed, Accounts(was), added, w) == SpawnRun(armed, Accounts(Now()), rest, w)
        invariant Untouched(was, Now(), Ids(added))
        decreases |rest|
      {
        ghost var before := Now();
        stop := SpawnOneMore(rest[0], w);
        IdsCons(rest);
        UntouchedMore(was, before, Now(), Ids(added), rest[0].instance);
        if stop.Some? {
          return;
        }
        rest := rest[1..];
      }
      return None;
    }

    // removed, then changed, then added. Stops at the first error; what came before
    // stays done.
    method ApplyDiffInOrder(d: AccountDiff, w: World) returns (stop: Option<ReloadError>)
      requires Ready()
      modifies inbound, outbound, health
      ensures Sound(Now(), stop) && (stop.None? ==> Ready()) && Untouched(old(Now()), Now(), Affected(d))
      ensures Progress(Accounts(Now()), stop) == DiffRun(armed, old(Accounts(Now())), d, w)
    {
      ghost var was := Now();
      StopAll(d.removed);
      ghost var stopped := Now();
      stop := RespawnAll(d.changed, w);
      UntouchedTrans(was, stopped, Now(), InstanceSet(d.removed), Ids(d.changed));
      if stop.Some? {
        UntouchedTrans(was, Now(), Now(), InstanceSet(d.removed) + Ids(d.changed), Ids(d.added));
        return;
      }
      ghost var respawned := Now();
      stop := SpawnAll(d.added, w);
      UntouchedTrans(was, respawned, Now(), InstanceSet(d.removed) + Ids(d.changed), Ids(d.added));
    }

    // apply_account_diff. With the managers started and every store, credential and queue
    // in place it reaches the new config, up to accounts_equal or to the letter, exactly when every id reconciles;
    // from the configured accounts the first is always so. In any case both sides agree
    // afterwards, except for an instance whose queue could not be opened, and an account
    // that did not change keeps its two workers and its record.
    method ApplyAccountDiff(newCfg: seq<Account>, w: World) returns (r: Result<AccountDiff, ReloadError>)
      requires Ready()
      modifies inbound, outbound, health
      ensures var d := DiffOf(cfg, newCfg);
        var p := ReloadRun(armed, old(Accounts(Now())), d, w);
        r == (match p.stop case None => Ok(d) case Some(e) => Err(e))
        && Accounts(Now()) == p.run && Sound(Now(), p.stop)
      ensures DistinctInstances(newCfg) ==>
        forall i :: Unchanged(cfg, newCfg, i) && i in old(inbound.workers) ==> SlotKept(old(Now()), Now(), i)
      ensures armed && Smooth(w, newCfg) && DistinctInstances(newCfg) ==>
        r == Ok(DiffOf(cfg, newCfg)) && Ready()
        && (Reached(Now(), newCfg) <==> forall i :: Reconciles(old(Accounts(Now())), cfg, newCfg, i))
        && (ReachedExactly(Now(), newCfg) <==> forall i :: ReconcilesExactly(old(Accounts(Now())), cfg, newCfg, i))
      ensures armed && Smooth(w, newCfg) && DistinctInstances(newCfg) && Serves(old(Accounts(Now())), cfg) ==>
        Reached(Now(), newCfg)
    {
      ghost var was := Now();
      var d := ComputeAccountDiff(cfg, newCfg);
      var stop: Option<ReloadError> := None;
      UntouchedSame(was, Affected(d));
      if !IsEmpty(d) {
        if w.store {
          stop := ApplyDiffInOrder(d, w);
        } else {
          stop := Some(StoreUnavailable);
        }
      }
      if DistinctInstances(newCfg) {
        ReloadConcludes(armed, was, Now(), cfg, newCfg, w, stop);
      }
      return if stop.None? then Ok(d) else Err(stop.value);
    }
  }

  function InstanceSet(ids: seq<string>): set<string> {
    set i | i in ids
  }

  lemma InstanceSetMore(ids: seq<string>, k: nat)
    requires k < |ids|
    ensures ids[..k + 1] == ids[..k] + [ids[k]] && ids[..k + 1][..k] == ids[..k]
    ensures InstanceSet(ids[..k + 1]) == InstanceSet(ids[..k]) + {ids[k]}
  {
    assert ids[..k + 1] == ids[..k] + [ids[k]];
  }

  function Ids(accounts: seq<Account>): set<string> {
    set a | a in accounts :: a.instance
  }

  lemma IdsCons(accounts: seq<Account>)
    requires accounts != []
    ensures accounts[0].instance in Ids(accounts) && Ids(accounts[1..]) <= Ids(accounts)
  {
    assert accounts[0] in accounts;
  }

  lemma UntouchedMore(t: Tables, t': Tables, t'': Tables, ids: set<string>, i: string)
    requires Untouched(t, t', ids) && Untouched(t', t'', {i}) && i in ids
    ensures Untouched(t, t'', ids)
  {
    UntouchedTrans(t, t', t'', ids, {i});
    assert ids + {i} == ids;
  }

  lemma UntouchedSame(t: Tables, ids: set<string>)
    ensures Untouched(t, t, ids)
  {
  }

  // The instances a diff has work for.
  function Affected(d: AccountDiff): set<string> {
    InstanceSet(d.removed) + Ids(d.changed) + Ids(d.added)
  }

  // --- With every credential and queue in place ---

  lemma {:induction false} RespawnCons(run: Running, a: Account, rest: seq<Account>)
    ensures Respawn(run, [a] + rest) == Respawn((run - {a.instance})[a.instance := a], rest)
  {
    var all := [a] + rest;
    assert (run - {a.instance})[a.instance := a] == run[a.instance := a];
    if rest == [] {
      assert all[..0] == [];
    } else {
      var n := |rest| - 1;
      assert all[..|all| - 1] == [a] + rest[..n];
      RespawnCons(run, a, rest[..n]);
    }
  }

  lemma {:induction false} SpawnCons(run: Running, a: Account, rest: seq<Account>)
    ensures Spawn(run, [a] + rest) == Spawn(SpawnOne(run, a), rest)
  {
    var all := [a] + rest;
    if rest == [] {
      assert all[..0] == [];
    } else {
      var n := |rest| - 1;
      assert all[..|all| - 1] == [a] + rest[..n];
      SpawnCons(run, a, rest[..n]);
    }
  }

  lemma {:induction false} RespawnsAll(run: Running, changed: seq<Account>, w: World)
    requires Ids(changed) <= w.creds * w.queues
    ensures RespawnRun(true, run, changed, w) == Progress(Respawn(run, changed), None)
    decreases |changed|
  {
    if changed != [] {
      var a, rest := changed[0], changed[1..];
      IdsCons(changed);
      RespawnsAll((run - {a.instance})[a.instance := a], rest, w);
      assert changed == [a] + rest;
      RespawnCons(run, a, rest);
    }
  }

  lemma {:induction false} SpawnsAll(run: Running, added: seq<Account>, w: World)
    requires Ids(added) <= w.creds * w.queues
    ensures SpawnRun(true, run, added, w) == Progress(Spawn(run, added), None)
    decreases |added|
  {
    if added != [] {
      var a, rest := added[0], added[1..];
      IdsCons(added);
      SpawnsAll(SpawnOne(run, a), rest, w);
      assert added == [a] + rest;
      SpawnCons(run, a, rest);
    }
  }

  // Then a reload is the diff applied in full.
  lemma ReloadsAll(run: Running, oldCfg: seq<Account>, newCfg: seq<Account>, w: World)
    requires Smooth(w, newCfg)
    ensures ReloadRun(true, run, DiffOf(oldCfg, newCfg), w) == Progress(ApplyDiff(run, DiffOf(oldCfg, newCfg)), None)
  {
    var d := DiffOf(oldCfg, newCfg);
    forall a | a in d.added || a in d.changed ensures a.instance in Ids(newCfg) {
      NewMembers(oldCfg, newCfg, a);
    }
    RespawnsAll(TearDown(run, d.removed), d.changed, w);
    SpawnsAll(Respawn(TearDown(run, d.removed), d.changed), d.added, w);
  }

  // --- Before the managers were started ---

  lemma {:induction false} AllAdded(newCfg: seq<Account>)
    ensures AddedOf([], newCfg) == newCfg && ChangedOf([], newCfg) == []
  {
    if newCfg != [] {
      var n := |newCfg| - 1;
      AllAdded(newCfg[..n]);
      assert newCfg == newCfg[..n] + [newCfg[n]];
    }
  }

  // A plugin that was built without accounts never gets one: its managers are not
  // started, and every reload that adds an account fails and runs nothing.
  lemma NoFirstAccount(newCfg: seq<Account>, w: World)
    requires newCfg != []
    ensures var p := ReloadRun(false, map[], DiffOf([], newCfg), w); p.run == map[] && p.stop.Some?
  {
    AllAdded(newCfg);
    assert TearDown(map[], []) == map[];
  }

  // --- What a reload reaches ---

  // Inbound workers, outbound workers, dispatcher instances and health keys are the
  // instances of the config, and both workers of an instance share the record in the map.
  ghost predicate SameInstances(t: Tables, cfg: seq<Account>) {
    t.inbound.Keys == t.outbound.Keys == t.addresses.Keys == t.health.Keys == Ids(cfg)
    && forall i :: i in t.inbound ==> t.inbound[i].health == t.outbound[i].health == t.health[i]
  }

  // Both workers of each instance run its account, as far as accounts_equal can tell.
  ghost predicate Reached(t: Tables, cfg: seq<Account>) {
    SameInstances(t, cfg)
    && forall a :: a in cfg ==>
         AccountsEqual(t.inbound[a.instance].account, a) && AccountsEqual(t.outbound[a.instance].account, a)
  }

  // They run exactly its account.
  ghost predicate ReachedExactly(t: Tables, cfg: seq<Account>) {
    SameInstances(t, cfg)
    && forall a :: a in cfg ==> t.inbound[a.instance].account == a == t.outbound[a.instance].account
  }

  lemma ReachedMeansServes(t: Tables, cfg: seq<Account>)
    requires Consistent(t) && DistinctInstances(cfg)
    ensures Reached(t, cfg) <==> Serves(Accounts(t), cfg)
    ensures ReachedExactly(t, cfg) <==> ServesExactly(Accounts(t), cfg)
  {
    KeysAgree(t);
    if SameInstances(t, cfg) {
      SlotsOfConfig(t, cfg);
    } else {
      assert Serves(Accounts(t), cfg) || ServesExactly(Accounts(t), cfg) ==> SameInstances(t, cfg) by {
        if Serves(Accounts(t), cfg) || ServesExactly(Accounts(t), cfg) {
          ServedIds(Accounts(t), cfg);
        }
      }
    }
  }

  // One instance of the config, seen in the tables.
  lemma SlotOfAccount(t: Tables, cfg: seq<Account>, a: Account)
    requires Consistent(t) && SameInstances(t, cfg) && DistinctInstances(cfg) && a in cfg
    ensures FindAccount(cfg, a.instance) == Some(a)
    ensures a.instance in t.inbound && At(Accounts(t), a.instance) == Some(t.inbound[a.instance].account)
    ensures a.instance in t.outbound && t.outbound[a.instance].account == t.inbound[a.instance].account
  {
    FindMember(cfg, a);
    assert a.instance in Ids(cfg) && Coherent(t, a.instance);
  }

  // When the instances agree, the accounts agree in the tables as they do in the map.
  lemma SlotsOfConfig(t: Tables, cfg: seq<Account>)
    requires Consistent(t) && SameInstances(t, cfg) && DistinctInstances(cfg)
    ensures Reached(t, cfg) <==> Serves(Accounts(t), cfg)
    ensures ReachedExactly(t, cfg) <==> ServesExactly(Accounts(t), cfg)
  {
    MembersRun(t, cfg);
    ServesOnMembers(Accounts(t), cfg);
    ReachedOnMembers(t, cfg);
  }

  lemma MembersRun(t: Tables, cfg: seq<Account>)
    requires Consistent(t) && SameInstances(t, cfg) && DistinctInstances(cfg)
    ensures forall i :: i in Accounts(t) <==> FindAccount(cfg, i).Some?
    ensures forall a :: a in cfg ==> FindAccount(cfg, a.instance) == Some(a) && a.instance in Accounts(t)
  {
    forall i ensures i in Accounts(t) <==> FindAccount(cfg, i).Some? {
      if FindAccount(cfg, i).Some? {
        SlotOfAccount(t, cfg, FindAccount(cfg, i).value);
      } else {
        assert i !in Ids(cfg);
      }
    }
    forall a | a in cfg ensures FindAccount(cfg, a.instance) == Some(a) && a.instance in Accounts(t) {
      SlotOfAccount(t, cfg, a);
    }
  }

  lemma ReachedOnMembers(t: Tables, cfg: seq<Account>)
    requires Consistent(t) && SameInstances(t, cfg) && DistinctInstances(cfg)
    requires forall a :: a in cfg ==> a.instance in Accounts(t)
    ensures Reached(t, cfg) <==> forall a :: a in cfg ==> AccountsEqual(Accounts(t)[a.instance], a)
    ensures ReachedExactly(t, cfg) <==> forall a :: a in cfg ==> Accounts(t)[a.instance] == a
  {
    forall a | a in cfg
      ensures t.inbound[a.instance].account == Accounts(t)[a.instance] == t.outbound[a.instance].account
    {
      SlotOfAccount(t, cfg, a);
    }
  }

  lemma ServesOnMembers(run: Running, cfg: seq<Account>)
    requires forall i :: i in run <==> FindAccount(cfg, i).Some?
    requires forall a :: a in cfg ==> FindAccount(cfg, a.instance) == Some(a) && a.instance in run
    ensures Serves(run, cfg) <==> forall a :: a in cfg ==> AccountsEqual(run[a.instance], a)
    ensures ServesExactly(run, cfg) <==> forall a :: a in cfg ==> run[a.instance] == a
  {
    forall i | i in run ensures FindAccount(cfg, i).value in cfg && FindAccount(cfg, i).value.instance == i {
    }
    if forall a :: a in cfg ==> run[a.instance] == a {
      forall i ensures At(run, i) == FindAccount(cfg, i) {
        assert i in run ==> FindAccount(cfg, i).value in cfg;
      }
    }
    if forall a :: a in cfg ==> AccountsEqual(run[a.instance], a) {
      forall i ensures ServesAt(run, cfg, i) {
        assert i in run ==> FindAccount(cfg, i).value in cfg;
      }
    }
    if Serves(run, cfg) {
      forall a | a in cfg ensures AccountsEqual(run[a.instance], a) {
        assert ServesAt(run, cfg, a.instance);
      }
    }
    if ServesExactly(run, cfg) {
      forall a | a in cfg ensures run[a.instance] == a {
        assert At(run, a.instance) == FindAccount(cfg, a.instance);
      }
    }
  }

  lemma ReloadConcludes(
      up: bool, t: Tables, t': Tables, cfg: seq<Account>, newCfg: seq<Account>, w: World, stop: Option<ReloadError>)
    requires DistinctInstances(newCfg) && Consistent(t) && Sound(t', stop)
    requires Untouched(t, t', Affected(DiffOf(cfg, newCfg)))
    requires Progress(Accounts(t'), stop) == ReloadRun(up, Accounts(t), DiffOf(cfg, newCfg), w)
    ensures forall i :: Unchanged(cfg, newCfg, i) && i in t.inbound ==> SlotKept(t, t', i)
    ensures up && Smooth(w, newCfg) ==>
      stop == None && Consistent(t')
      && (Reached(t', newCfg) <==> forall i :: Reconciles(Accounts(t), cfg, newCfg, i))
      && (ReachedExactly(t', newCfg) <==> forall i :: ReconcilesExactly(Accounts(t), cfg, newCfg, i))
      && (Serves(Accounts(t), cfg) ==> Reached(t', newCfg))
  {
    forall i | Unchanged(cfg, newCfg, i) && i in t.inbound ensures SlotKept(t, t', i) {
      UnaffectedIds(cfg, newCfg, i);
      assert Coherent(t, i);
      SlotOutside(t, t', Affected(DiffOf(cfg, newCfg)), i);
    }
    if up && Smooth(w, newCfg) {
      ReloadsAll(Accounts(t), cfg, newCfg, w);
      ReachedMeansServes(t', newCfg);
      ReloadReachesExactly(Accounts(t), cfg, newCfg);
      ReloadReachesNewConfig(Accounts(t), cfg, newCfg);
    }
  }

  ghost predicate Unchanged(oldCfg: seq<Account>, newCfg: seq<Account>, i: string) {
    FindAccount(oldCfg, i).Some? && FindAccount(newCfg, i).Some?
    && AccountsEqual(FindAccount(oldCfg, i).value, FindAccount(newCfg, i).value)
  }

  lemma KeysAgree(t: Tables)
    requires Consistent(t)
    ensures t.inbound.Keys == t.outbound.Keys == t.addresses.Keys == t.health.Keys == Accounts(t).Keys
    ensures forall i :: i in t.inbound ==> t.inbound[i].health == t.outbound[i].health == t.health[i]
  {
    forall i ensures i in t.inbound.Keys <==> i in t.outbound.Keys { assert Coherent(t, i); }
    forall i ensures i in t.inbound.Keys <==> i in t.addresses.Keys { assert Coherent(t, i); }
    forall i ensures i in t.inbound.Keys <==> i in t.health.Keys { assert Coherent(t, i); }
    forall i | i in t.inbound ensures t.inbound[i].health == t.outbound[i].health == t.health[i] {
      assert Coherent(t, i);
    }
  }

  lemma ServedIds(run: Running, cfg: seq<Account>)
    requires Serves(run, cfg) || ServesExactly(run, cfg)
    ensures run.Keys == Ids(cfg)
  {
    forall i ensures i in run.Keys <==> i in Ids(cfg) {
      assert FindAccount(cfg, i).Some? ==> FindAccount(cfg, i).value in cfg;
      assert ServesExactly(run, cfg) ==> At(run, i) == FindAccount(cfg, i);
      assert Serves(run, cfg) ==> ServesAt(run, cfg, i);
    }
  }

  ghost predicate SlotKept(t: Tables, t': Tables, i: string) {
    i in t.inbound && i in t.outbound && i in t.health && i in t'.inbound && i in t'.outbound && i in t'.health
    && t'.inbound[i] == t.inbound[i] && t'.outbound[i] == t.outbound[i] && t'.health[i] == t.health[i]
  }

  lemma SlotOutside(t: Tables, t': Tables, ids: set<string>, i: string)
    requires Untouched(t, t', ids) && i !in ids && i in t.inbound && Coherent(t, i)
    ensures SlotKept(t, t', i)
  {
    assert i in t.inbound - ids && i in t.outbound - ids && i in t.health - ids;
    assert (t'.inbound - ids)[i] == (t.inbound - ids)[i];
    assert (t'.outbound - ids)[i] == (t.outbound - ids)[i];
    assert (t'.health - ids)[i] == (t.health - ids)[i];
  }

  // The instances a reload leaves alone are those with the same account in both
  // configs, and those in neither.
  lemma UnaffectedIds(oldCfg: seq<Account>, newCfg: seq<Account>, i: string)
    requires DistinctInstances(newCfg)
    ensures i in Affected(DiffOf(oldCfg, newCfg)) <==>
      (!(FindAccount(oldCfg, i).None? && FindAccount(newCfg, i).None?) && !Unchanged(oldCfg, newCfg, i))
  {
    DiffMembers(oldCfg, newCfg, i);
  }
}
