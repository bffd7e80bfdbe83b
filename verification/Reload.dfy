// The account diff of src/reload.rs, and what applying it does to a set of
// running accounts.
module Reload {
  import opened Wrappers

  datatype Endpoint = Endpoint(host: string, port: nat, tls: nat)
  datatype Folders = Folders(inbox: string, sent: string, archive: string)
  datatype Filters = Filters(allow: seq<string>, deny: seq<string>)

  datatype Account = Account(
    instance: string,
    address: string,
    provider: nat,
    imapServer: Endpoint,
    smtpServer: Endpoint,
    folders: Folders,
    filters: Filters,
    bootstrapLimit: Option<U32>)

  type Running = map<string, Account>

  predicate AccountsEqual(a: Account, b: Account) {
    a.instance == b.instance
    && a.address == b.address
    && a.provider == b.provider
    && a.imapServer.host == b.imapServer.host
    && a.imapServer.port == b.imapServer.port
    && a.imapServer.tls == b.imapServer.tls
    && a.smtpServer.host == b.smtpServer.host
    && a.smtpServer.port == b.smtpServer.port
    && a.smtpServer.tls == b.smtpServer.tls
    && a.folders.inbox == b.folders.inbox
    && a.folders.sent == b.folders.sent
    && a.folders.archive == b.folders.archive
    && a.filters.allow == b.filters.allow
    && a.filters.deny == b.filters.deny
  }

  // Every field counts except one.
  lemma EqualUpToBootstrapLimit(a: Account, b: Account)
    ensures AccountsEqual(a, b) <==> a == b.(bootstrapLimit := a.bootstrapLimit)
  {
  }

  function FindAccount(accounts: seq<Account>, instance: string): (r: Option<Account>)
    ensures r.Some? ==> r.value in accounts && r.value.instance == instance
    ensures r.None? ==> forall a :: a in accounts ==> a.instance != instance
  {
    if accounts == [] then None
    else if accounts[0].instance == instance then Some(accounts[0])
    else FindAccount(accounts[1..], instance)
  }

  datatype AccountDiff = AccountDiff(added: seq<Account>, removed: seq<string>, changed: seq<Account>)

  predicate IsEmpty(d: AccountDiff) {
    d.added == [] && d.removed == [] && d.changed == []
  }

  predicate IsAdded(oldCfg: seq<Account>, a: Account) {
    FindAccount(oldCfg, a.instance).None?
  }

  predicate IsChanged(oldCfg: seq<Account>, a: Account) {
    FindAccount(oldCfg, a.instance).Some? && !AccountsEqual(FindAccount(oldCfg, a.instance).value, a)
  }

  // Accounts of the new config the old one does not have, in order.
  function AddedOf(oldCfg: seq<Account>, newCfg: seq<Account>): seq<Account> {
    if newCfg == [] then []
    else
      var a := newCfg[|newCfg| - 1];
      AddedOf(oldCfg, newCfg[..|newCfg| - 1]) + if IsAdded(oldCfg, a) then [a] else []
  }

  function ChangedOf(oldCfg: seq<Account>, newCfg: seq<Account>): seq<Account> {
    if newCfg == [] then []
    else
      var a := newCfg[|newCfg| - 1];
      ChangedOf(oldCfg, newCfg[..|newCfg| - 1]) + if IsChanged(oldCfg, a) then [a] else []
  }

  function RemovedOf(oldCfg: seq<Account>, newCfg: seq<Account>): seq<string> {
    if oldCfg == [] then []
    else
      var a := oldCfg[|oldCfg| - 1];
      RemovedOf(oldCfg[..|oldCfg| - 1], newCfg) + if IsAdded(newCfg, a) then [a.instance] else []
  }

  function DiffOf(oldCfg: seq<Account>, newCfg: seq<Account>): AccountDiff {
    AccountDiff(AddedOf(oldCfg, newCfg), RemovedOf(oldCfg, newCfg), ChangedOf(oldCfg, newCfg))
  }

  method ComputeAccountDiff(oldCfg: seq<Account>, newCfg: seq<Account>) returns (d: AccountDiff)
    ensures d == DiffOf(oldCfg, newCfg)
  {
    var added: seq<Account> := [];
    var changed: seq<Account> := [];
    for i := 0 to |newCfg|
      invariant added == AddedOf(oldCfg, newCfg[..i])
      invariant changed == ChangedOf(oldCfg, newCfg[..i])
    {
      assert newCfg[..i + 1][..i] == newCfg[..i];
      var found := FindAccount(oldCfg, newCfg[i].instance);
      if found.None? {
        added := added + [newCfg[i]];
      } else if !AccountsEqual(found.value, newCfg[i]) {
        changed := changed + [newCfg[i]];
      }
    }
    assert newCfg[..|newCfg|] == newCfg;
    var removed: seq<string> := [];
    for i := 0 to |oldCfg|
      invariant removed == RemovedOf(oldCfg[..i], newCfg)
    {
      assert oldCfg[..i + 1][..i] == oldCfg[..i];
      if FindAccount(newCfg, oldCfg[i].instance).None? {
        removed := removed + [oldCfg[i].instance];
      }
    }
    assert oldCfg[..|oldCfg|] == oldCfg;
    d := AccountDiff(added, removed, changed);
  }

  lemma {:induction false} NewMembers(oldCfg: seq<Account>, newCfg: seq<Account>, a: Account)
    ensures a in AddedOf(oldCfg, newCfg) <==> a in newCfg && IsAdded(oldCfg, a)
    ensures a in ChangedOf(oldCfg, newCfg) <==> a in newCfg && IsChanged(oldCfg, a)
  {
    if newCfg != [] {
      var n := |newCfg| - 1;
      NewMembers(oldCfg, newCfg[..n], a);
      assert newCfg == newCfg[..n] + [newCfg[n]];
    }
  }

  lemma {:induction false} RemovedMembers(oldCfg: seq<Account>, newCfg: seq<Account>, i: string)
    ensures i in RemovedOf(oldCfg, newCfg) <==> FindAccount(oldCfg, i).Some? && FindAccount(newCfg, i).None?
  {
    if oldCfg != [] {
      var n := |oldCfg| - 1;
      RemovedMembers(oldCfg[..n], newCfg, i);
      assert oldCfg == oldCfg[..n] + [oldCfg[n]];
      FindAppend(oldCfg[..n], oldCfg[n], i);
    }
  }

  lemma {:induction false} FindAppend(accounts: seq<Account>, a: Account, i: string)
    ensures FindAccount(accounts + [a], i)
         == if FindAccount(accounts, i).Some? then FindAccount(accounts, i)
            else if a.instance == i then Some(a) else None
  {
    if accounts != [] {
      assert (accounts + [a])[1..] == accounts[1..] + [a];
      FindAppend(accounts[1..], a, i);
    } else {
      var one := [a];
      assert accounts + one == one;
      assert one[1..] == [];
    }
  }

  // The diff keeps the order of the two configs: it is made account by account.
  lemma {:induction false} AddedInOrder(oldCfg: seq<Account>, a: seq<Account>, b: seq<Account>)
    ensures AddedOf(oldCfg, a + b) == AddedOf(oldCfg, a) + AddedOf(oldCfg, b)
  {
    if b == [] {
      assert a + b == a;
    } else {
      var n := |b| - 1;
      assert (a + b)[..|a| + n] == a + b[..n];
      AddedInOrder(oldCfg, a, b[..n]);
      Assoc(AddedOf(oldCfg, a), AddedOf(oldCfg, b[..n]), if IsAdded(oldCfg, b[n]) then [b[n]] else []);
    }
  }

  lemma {:induction false} ChangedInOrder(oldCfg: seq<Account>, a: seq<Account>, b: seq<Account>)
    ensures ChangedOf(oldCfg, a + b) == ChangedOf(oldCfg, a) + ChangedOf(oldCfg, b)
  {
    if b == [] {
      assert a + b == a;
    } else {
      var n := |b| - 1;
      assert (a + b)[..|a| + n] == a + b[..n];
      ChangedInOrder(oldCfg, a, b[..n]);
      Assoc(ChangedOf(oldCfg, a), ChangedOf(oldCfg, b[..n]), if IsChanged(oldCfg, b[n]) then [b[n]] else []);
    }
  }

  lemma {:induction false} RemovedInOrder(newCfg: seq<Account>, a: seq<Account>, b: seq<Account>)
    ensures RemovedOf(a + b, newCfg) == RemovedOf(a, newCfg) + RemovedOf(b, newCfg)
  {
    if b == [] {
      assert a + b == a;
    } else {
      var n := |b| - 1;
      assert (a + b)[..|a| + n] == a + b[..n];
      RemovedInOrder(newCfg, a, b[..n]);
      Assoc(RemovedOf(a, newCfg), RemovedOf(b[..n], newCfg), if IsAdded(newCfg, b[n]) then [b[n].instance] else []);
    }
  }

  ghost predicate DistinctInstances(accounts: seq<Account>) {
    forall i, j :: 0 <= i < j < |accounts| ==> accounts[i].instance != accounts[j].instance
  }

  lemma {:induction false} FindMember(accounts: seq<Account>, a: Account)
    requires DistinctInstances(accounts) && a in accounts
    ensures FindAccount(accounts, a.instance) == Some(a)
  {
    if accounts[0] != a {
      assert a in accounts[1..];
      FindMember(accounts[1..], a);
    }
  }

  // Members of the diff, by instance id.
  lemma DiffMembers(oldCfg: seq<Account>, newCfg: seq<Account>, i: string)
    requires DistinctInstances(newCfg)
    ensures i in DiffOf(oldCfg, newCfg).removed <==> FindAccount(oldCfg, i).Some? && FindAccount(newCfg, i).None?
    ensures (exists a :: a in DiffOf(oldCfg, newCfg).added && a.instance == i)
       <==> FindAccount(newCfg, i).Some? && FindAccount(oldCfg, i).None?
    ensures (exists a :: a in DiffOf(oldCfg, newCfg).changed && a.instance == i)
       <==> FindAccount(newCfg, i).Some? && FindAccount(oldCfg, i).Some?
            && !AccountsEqual(FindAccount(oldCfg, i).value, FindAccount(newCfg, i).value)
  {
    RemovedMembers(oldCfg, newCfg, i);
    forall a | a in newCfg && a.instance == i ensures FindAccount(newCfg, i) == Some(a) {
      FindMember(newCfg, a);
    }
    forall a ensures a in AddedOf(oldCfg, newCfg) <==> a in newCfg && IsAdded(oldCfg, a)
             ensures a in ChangedOf(oldCfg, newCfg) <==> a in newCfg && IsChanged(oldCfg, a)
    {
      NewMembers(oldCfg, newCfg, a);
    }
    if FindAccount(newCfg, i).Some? {
      assert FindAccount(newCfg, i).value in newCfg;
    }
  }

  // --- Applying a diff to a set of running accounts ---

  // Tear down each removed one.
  function TearDown(run: Running, removed: seq<string>): Running {
    if removed == [] then run else TearDown(run, removed[..|removed| - 1]) - {removed[|removed| - 1]}
  }

  // Tear down and respawn each changed one.
  function Respawn(run: Running, changed: seq<Account>): Running {
    if changed == [] then run
    else
      var a := changed[|changed| - 1];
      Respawn(run, changed[..|changed| - 1])[a.instance := a]
  }

  // An instance that already runs is left alone.
  function SpawnOne(run: Running, a: Account): Running {
    if a.instance in run then run else run[a.instance := a]
  }

  function Spawn(run: Running, added: seq<Account>): Running {
    if added == [] then run
    else SpawnOne(Spawn(run, added[..|added| - 1]), added[|added| - 1])
  }

  function ApplyDiff(run: Running, d: AccountDiff): Running {
    Spawn(Respawn(TearDown(run, d.removed), d.changed), d.added)
  }

  // The result, id by id.
  function After(run: Running, oldCfg: seq<Account>, newCfg: seq<Account>, i: string): Option<Account> {
    var now := if i in run then Some(run[i]) else None;
    match FindAccount(newCfg, i)
    case None => if FindAccount(oldCfg, i).Some? then None else now
    case Some(a) =>
      if FindAccount(oldCfg, i).None? then (if now.Some? then now else Some(a))
      else if AccountsEqual(FindAccount(oldCfg, i).value, a) then now
      else Some(a)
  }

  function At(run: Running, i: string): Option<Account> {
    if i in run then Some(run[i]) else None
  }

  lemma {:induction false} TearDownAt(run: Running, removed: seq<string>, i: string)
    ensures At(TearDown(run, removed), i) == if i in removed then None else At(run, i)
  {
    if removed != [] {
      var n := |removed| - 1;
      TearDownAt(run, removed[..n], i);
      assert removed == removed[..n] + [removed[n]];
    }
  }

  lemma {:induction false} RespawnAt(run: Running, changed: seq<Account>, i: string, a: Option<Account>)
    requires forall c :: c in changed && c.instance == i ==> a == Some(c)
    ensures At(Respawn(run, changed), i)
         == if exists c :: c in changed && c.instance == i then a else At(run, i)
  {
    if changed != [] {
      var n := |changed| - 1;
      assert changed == changed[..n] + [changed[n]];
      RespawnAt(run, changed[..n], i, a);
      if changed[n].instance == i {
        assert changed[n] in changed;
      }
    }
  }

  lemma {:induction false} SpawnAt(run: Running, added: seq<Account>, i: string, a: Option<Account>)
    requires forall c :: c in added && c.instance == i ==> a == Some(c)
    ensures At(Spawn(run, added), i)
         == if At(run, i).None? && exists c :: c in added && c.instance == i then a else At(run, i)
  {
    if added != [] {
      var n := |added| - 1;
      assert added == added[..n] + [added[n]];
      SpawnAt(run, added[..n], i, a);
      if added[n].instance == i {
        assert added[n] in added;
      }
    }
  }

  lemma ApplyDiffAt(run: Running, oldCfg: seq<Account>, newCfg: seq<Account>, i: string)
    requires DistinctInstances(newCfg)
    ensures At(ApplyDiff(run, DiffOf(oldCfg, newCfg)), i) == After(run, oldCfg, newCfg, i)
  {
    var d := DiffOf(oldCfg, newCfg);
    DiffMembers(oldCfg, newCfg, i);
    forall a | a in d.added + d.changed && a.instance == i ensures FindAccount(newCfg, i) == Some(a) {
      NewMembers(oldCfg, newCfg, a);
      FindMember(newCfg, a);
    }
    assert forall a :: a in d.added || a in d.changed ==> a in d.added + d.changed;
    var down := TearDown(run, d.removed);
    TearDownAt(run, d.removed, i);
    RespawnAt(down, d.changed, i, FindAccount(newCfg, i));
    SpawnAt(Respawn(down, d.changed), d.added, i, FindAccount(newCfg, i));
  }

  // run is what a config asks for, as far as accounts_equal can tell.
  ghost predicate Serves(run: Running, cfg: seq<Account>) {
    forall i :: ServesAt(run, cfg, i)
  }

  predicate ServesAt(run: Running, cfg: seq<Account>, i: string) {
    (i in run <==> FindAccount(cfg, i).Some?) && (i in run ==> AccountsEqual(run[i], FindAccount(cfg, i).value))
  }

  // run is exactly what it asks for.
  ghost predicate ServesExactly(run: Running, cfg: seq<Account>) {
    forall i :: At(run, i) == FindAccount(cfg, i)
  }

  // What a set of running accounts must be like, id by id, for the diff against an old
  // config to lead to the new one.
  ghost predicate Reconciles(run: Running, oldCfg: seq<Account>, newCfg: seq<Account>, i: string) {
    match FindAccount(newCfg, i)
    case None => i in run ==> FindAccount(oldCfg, i).Some?
    case Some(a) =>
      if FindAccount(oldCfg, i).None? then i in run ==> AccountsEqual(run[i], a)
      else AccountsEqual(FindAccount(oldCfg, i).value, a) ==> i in run && AccountsEqual(run[i], a)
  }

  ghost predicate ReconcilesExactly(run: Running, oldCfg: seq<Account>, newCfg: seq<Account>, i: string) {
    match FindAccount(newCfg, i)
    case None => i in run ==> FindAccount(oldCfg, i).Some?
    case Some(a) =>
      if FindAccount(oldCfg, i).None? then i in run ==> run[i] == a
      else AccountsEqual(FindAccount(oldCfg, i).value, a) ==> At(run, i) == Some(a)
  }

  // The plugin keeps diffing against the config it was built with, so a second reload
  // may start from accounts that config never had. It reaches the new config, up to
  // accounts_equal or to the letter, exactly when every id reconciles.
  lemma ReloadReachesExactly(run: Running, oldCfg: seq<Account>, newCfg: seq<Account>)
    requires DistinctInstances(newCfg)
    ensures Serves(ApplyDiff(run, DiffOf(oldCfg, newCfg)), newCfg)
       <==> forall i :: Reconciles(run, oldCfg, newCfg, i)
    ensures ServesExactly(ApplyDiff(run, DiffOf(oldCfg, newCfg)), newCfg)
       <==> forall i :: ReconcilesExactly(run, oldCfg, newCfg, i)
  {
    var after := ApplyDiff(run, DiffOf(oldCfg, newCfg));
    forall i
      ensures Reconciles(run, oldCfg, newCfg, i) <==> ServesAt(after, newCfg, i)
      ensures ReconcilesExactly(run, oldCfg, newCfg, i) <==> At(after, i) == FindAccount(newCfg, i)
    {
      ReconcilesAt(run, oldCfg, newCfg, i);
    }
  }

  lemma ReconcilesAt(run: Running, oldCfg: seq<Account>, newCfg: seq<Account>, i: string)
    requires DistinctInstances(newCfg)
    ensures var after := ApplyDiff(run, DiffOf(oldCfg, newCfg));
      (Reconciles(run, oldCfg, newCfg, i) <==> ServesAt(after, newCfg, i))
      && (ReconcilesExactly(run, oldCfg, newCfg, i) <==> At(after, i) == FindAccount(newCfg, i))
  {
    ApplyDiffAt(run, oldCfg, newCfg, i);
  }

  // Where the two configs agree on an account, they agree on its bootstrap limit too.
  ghost predicate LimitKept(oldCfg: seq<Account>, newCfg: seq<Account>, i: string) {
    FindAccount(oldCfg, i).Some? && FindAccount(newCfg, i).Some?
    && AccountsEqual(FindAccount(oldCfg, i).value, FindAccount(newCfg, i).value) ==>
      FindAccount(oldCfg, i).value.bootstrapLimit == FindAccount(newCfg, i).value.bootstrapLimit
  }

  // From the accounts of the old config a reload always reaches those of the new one up
  // to accounts_equal, and reaches them to the letter exactly when no account keeps
  // everything but its bootstrap limit.
  lemma ReloadReachesNewConfig(run: Running, oldCfg: seq<Account>, newCfg: seq<Account>)
    requires DistinctInstances(newCfg)
    ensures Serves(run, oldCfg) ==> Serves(ApplyDiff(run, DiffOf(oldCfg, newCfg)), newCfg)
    ensures ServesExactly(run, oldCfg) ==>
      (ServesExactly(ApplyDiff(run, DiffOf(oldCfg, newCfg)), newCfg) <==> forall i :: LimitKept(oldCfg, newCfg, i))
  {
    ReloadReachesExactly(run, oldCfg, newCfg);
    if Serves(run, oldCfg) {
      forall i ensures Reconciles(run, oldCfg, newCfg, i) {
        ConfiguredReconciles(run, oldCfg, newCfg, i);
      }
    }
    if ServesExactly(run, oldCfg) {
      forall i ensures ReconcilesExactly(run, oldCfg, newCfg, i) <==> LimitKept(oldCfg, newCfg, i) {
        assert At(run, i) == FindAccount(oldCfg, i);
        ExactlyUpToLimit(oldCfg, newCfg, i);
      }
    }
  }

  lemma ConfiguredReconciles(run: Running, oldCfg: seq<Account>, newCfg: seq<Account>, i: string)
    requires Serves(run, oldCfg)
    ensures Reconciles(run, oldCfg, newCfg, i)
  {
    assert ServesAt(run, oldCfg, i);
  }

  lemma ExactlyUpToLimit(oldCfg: seq<Account>, newCfg: seq<Account>, i: string)
    ensures FindAccount(oldCfg, i).Some? && FindAccount(newCfg, i).Some? ==>
      (LimitKept(oldCfg, newCfg, i)
       <==> (AccountsEqual(FindAccount(oldCfg, i).value, FindAccount(newCfg, i).value)
             ==> FindAccount(oldCfg, i) == FindAccount(newCfg, i)))
  {
    if FindAccount(oldCfg, i).Some? && FindAccount(newCfg, i).Some? {
      EqualUpToBootstrapLimit(FindAccount(oldCfg, i).value, FindAccount(newCfg, i).value);
    }
  }

  // One account, whose limit is all that changes: the reload does nothing.
  lemma ChangedLimitIgnored(a: Account, limit: Option<U32>)
    requires limit != a.bootstrapLimit
    ensures var run := map[a.instance := a];
      ServesExactly(run, [a])
      && IsEmpty(DiffOf([a], [a.(bootstrapLimit := limit)]))
      && !ServesExactly(ApplyDiff(run, DiffOf([a], [a.(bootstrapLimit := limit)])), [a.(bootstrapLimit := limit)])
  {
    var b := a.(bootstrapLimit := limit);
    var oldCfg, newCfg, run := [a], [b], map[a.instance := a];
    forall i
      ensures At(run, i) == FindAccount(oldCfg, i)
      ensures FindAccount(newCfg, i) == if i == a.instance then Some(b) else None
    {
      FindOne(a, i);
      FindOne(b, i);
    }
    var d := DiffOf(oldCfg, newCfg);
    forall x | x in d.added ensures false {
      NewMembers(oldCfg, newCfg, x);
    }
    forall x | x in d.changed ensures false {
      NewMembers(oldCfg, newCfg, x);
    }
    forall x | x in d.removed ensures false {
      RemovedMembers(oldCfg, newCfg, x);
    }
    SomeMember(d.added);
    SomeMember(d.changed);
    SomeMember(d.removed);
    ReloadReachesNewConfig(run, oldCfg, newCfg);
    assert !LimitKept(oldCfg, newCfg, a.instance);
  }

  lemma SomeMember<T(!new)>(s: seq<T>)
    ensures s == [] || exists x :: x in s
  {
    if s != [] {
      assert s[0] in s;
    }
  }

  lemma FindOne(a: Account, i: string)
    ensures FindAccount([a], i) == if i == a.instance then Some(a) else None
  {
    var one := [a];
    assert one[1..] == [];
  }

  // An account that only an earlier reload brought in survives every reload to a
  // config without it.
  lemma StrayStays(run: Running, oldCfg: seq<Account>, newCfg: seq<Account>, i: string)
    requires DistinctInstances(newCfg)
    requires i in run && FindAccount(oldCfg, i).None? && FindAccount(newCfg, i).None?
    ensures At(ApplyDiff(run, DiffOf(oldCfg, newCfg)), i) == Some(run[i])
  {
    ApplyDiffAt(run, oldCfg, newCfg, i);
  }

  // The smallest history: one account configured, another added, then dropped.
  lemma AddedThenDroppedStays(b: Account, a: Account)
    requires a.instance != b.instance
    ensures var run := map[b.instance := b];
      var first := ApplyDiff(run, DiffOf([b], [b, a]));
      ServesExactly(run, [b])
      && At(first, a.instance) == Some(a)
      && At(ApplyDiff(first, DiffOf([b], [b])), a.instance) == Some(a)
  {
    var run := map[b.instance := b];
    forall i ensures At(run, i) == FindAccount([b], i) {
      FindOne(b, i);
    }
    var first := ApplyDiff(run, DiffOf([b], [b, a]));
    assert At(first, a.instance) == Some(a) by {
      FindOne(b, a.instance);
      FindAppend([b], a, a.instance);
      assert [b] + [a] == [b, a];
      ApplyDiffAt(run, [b], [b, a], a.instance);
    }
    FindOne(b, a.instance);
    StrayStays(first, [b], [b], a.instance);
  }
}
