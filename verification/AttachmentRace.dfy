// Attachments arriving while the garbage collector of src/attachment_store.rs runs:
// the existence check, the write and the record of an arrival, and the SELECT, the
// unlinks and the bulk DELETE of a sweep, are separate steps over one directory.
module AttachmentRace {
  import opened Wrappers
  import opened Attachments

  datatype Progress = Found | Missing | TempWritten | Placed

  // One attachment between its existence check and its record.
  datatype Arrival = Arrival(bytes: seq<Byte>, at: Progress)

  datatype Sweep = Idle | Sweeping(cutoff: int, stale: seq<string>, next: nat)

  // What a step reads and writes, and some history:
  // floor: the highest cutoff any sweep has used, if there was one.
  // overlapped: names on the running sweep's list of which an arrival was under way
  // at some moment since its SELECT.
  // gone: names whose file was unlinked under a fresh row, or under an arrival that
  // counted on it, and was not put back since.
  // steady: the clock was never set back.
  datatype State = State(
    rows: Rows,
    files: Files,
    temps: map<nat, seq<Byte>>,
    arrivals: map<nat, Arrival>,
    sweep: Sweep,
    now: int,
    floor: Option<int>,
    overlapped: set<string>,
    gone: set<string>,
    steady: bool)

  datatype Event =
    | Check(id: nat, bytes: seq<Byte>)
    | WriteTemp(id: nat)
    | WriteFails(id: nat, written: nat)
    | Place(id: nat)
    | Recorded(id: nat)
    | RecordFails(id: nat)
    | Clock(now: int)
    | Select(retention: int, stale: seq<string>)
    | Unlink(removable: bool)
    | BulkDelete
    | SweepFails
    | Crash

  const INIT := State(map[], map[], map[], map[], Idle, 0, None, {}, {}, true)

  // on the sweep's list
  predicate Listed(s: State, n: string) {
    s.sweep.Sweeping? && n in s.sweep.stale
  }

  function NameOf(hash: Hash, s: State, id: nat): string
    requires id in s.arrivals
  {
    hash(s.arrivals[id].bytes)
  }

  ghost predicate Enabled(hash: Hash, s: State, e: Event) {
    match e
    case Check(id, bytes) => id !in s.arrivals && id !in s.temps
    case WriteTemp(id) => id in s.arrivals && s.arrivals[id].at == Missing
    case WriteFails(id, _) => id in s.arrivals && s.arrivals[id].at == Missing
    case Place(id) => id in s.arrivals && s.arrivals[id].at == TempWritten && id in s.temps
    case Recorded(id) => id in s.arrivals && s.arrivals[id].at in {Found, Placed}
    case RecordFails(id) => id in s.arrivals && s.arrivals[id].at in {Found, Placed}
    case Clock(_) => true
    case Select(retention, stale) =>
      s.sweep.Idle? && retention > 0 && Distinct(stale)
      && forall n :: n in stale <==> n in Stale(s.rows, s.now - retention)
    case Unlink(_) => s.sweep.Sweeping? && s.sweep.next < |s.sweep.stale|
    case BulkDelete => s.sweep.Sweeping? && s.sweep.next == |s.sweep.stale|
    case SweepFails => s.sweep.Sweeping?
    case Crash => true
  }

  function Max(floor: Option<int>, cutoff: int): int {
    if floor.Some? && floor.value > cutoff then floor.value else cutoff
  }

  // The name the next unlink is for has a row that was recorded since the SELECT.
  predicate FreshRow(s: State, n: string) {
    s.sweep.Sweeping? && n in s.rows && s.rows[n].lastSeen >= s.sweep.cutoff
  }

  // An arrival of n has seen its file, or put it there, and is about to be recorded.
  ghost predicate CountedOn(hash: Hash, s: State, n: string) {
    exists id :: id in s.arrivals && NameOf(hash, s, id) == n && s.arrivals[id].at in {Found, Placed}
  }

  // An unlink of n that somebody will miss.
  ghost predicate Strikes(hash: Hash, s: State, e: Event, n: string) {
    e == Unlink(true) && Enabled(hash, s, e) && s.sweep.stale[s.sweep.next] == n
    && (FreshRow(s, n) || CountedOn(hash, s, n))
  }

  ghost predicate PutsBack(hash: Hash, s: State, e: Event, n: string) {
    e.Place? && Enabled(hash, s, e) && NameOf(hash, s, e.id) == n
  }

  ghost function After(hash: Hash, s: State, e: Event): State
    requires Enabled(hash, s, e)
  {
    match e
    case Check(id, bytes) =>
      var n := hash(bytes);
      s.(arrivals := s.arrivals[id := Arrival(bytes, if n in s.files then Found else Missing)],
         overlapped := if Listed(s, n) then s.overlapped + {n} else s.overlapped)
    case WriteTemp(id) =>
      s.(arrivals := s.arrivals[id := s.arrivals[id].(at := TempWritten)],
         temps := s.temps[id := s.arrivals[id].bytes])
    case WriteFails(id, written) =>
      s.(arrivals := s.arrivals - {id}, temps := s.temps[id := Capped(s.arrivals[id].bytes, written)])
    case Place(id) =>
      var n := NameOf(hash, s, id);
      s.(arrivals := s.arrivals[id := s.arrivals[id].(at := Placed)],
         files := s.files[n := s.temps[id]], temps := s.temps - {id}, gone := s.gone - {n})
    case Recorded(id) =>
      s.(arrivals := s.arrivals - {id}, rows := Upsert(s.rows, NameOf(hash, s, id), s.now))
    case RecordFails(id) => s.(arrivals := s.arrivals - {id})
    case Clock(now) => s.(now := now, steady := s.steady && now >= s.now)
    case Select(retention, stale) =>
      s.(sweep := Sweeping(s.now - retention, stale, 0),
         floor := Some(Max(s.floor, s.now - retention)),
         overlapped := set id | id in s.arrivals && NameOf(hash, s, id) in stale :: NameOf(hash, s, id))
    case Unlink(removable) =>
      var n := s.sweep.stale[s.sweep.next];
      s.(sweep := s.sweep.(next := s.sweep.next + 1),
         files := if removable then s.files - {n} else s.files,
         gone := if Strikes(hash, s, e, n) then s.gone + {n} else s.gone)
    case BulkDelete => s.(sweep := Idle, rows := Fresh(s.rows, s.sweep.cutoff), overlapped := {})
    case SweepFails => s.(sweep := Idle, overlapped := {})
    case Crash => s.(sweep := Idle, arrivals := map[], overlapped := {})
  }

  // states[i + 1] is what es[i] makes of states[i].
  ghost predicate Path(hash: Hash, states: seq<State>, es: seq<Event>) {
    |states| == |es| + 1
    && forall i :: 0 <= i < |es| ==> Enabled(hash, states[i], es[i]) && states[i + 1] == After(hash, states[i], es[i])
  }

  // From the empty store.
  ghost predicate Run(hash: Hash, states: seq<State>, es: seq<Event>) {
    Path(hash, states, es) && states[0] == INIT
  }

  ghost predicate Reachable(hash: Hash, s: State) {
    exists states, es :: Run(hash, states, es) && states[|es|] == s
  }

  // A row whose file may be gone for good reason: its last reference is older than
  // some sweep's cutoff.
  predicate Expired(s: State, n: string) {
    n in s.rows && s.floor.Some? && s.rows[n].lastSeen < s.floor.value
  }

  // --- The invariant ---

  ghost predicate FilesOk(hash: Hash, s: State) {
    HashedNames(hash, s.files)
    && (forall n :: n in s.gone ==> n !in s.files)
    && forall id :: id in s.arrivals && s.arrivals[id].at == TempWritten ==>
         id in s.temps && s.temps[id] == s.arrivals[id].bytes
  }

  ghost predicate RowOk(s: State, n: string) {
    n in s.rows ==> n in s.files || n in s.gone || Expired(s, n)
  }

  ghost predicate ArrivalOk(hash: Hash, s: State, id: nat) {
    id in s.arrivals ==>
      var n := NameOf(hash, s, id);
      (s.arrivals[id].at in {Found, Placed} ==> n in s.files || n in s.gone)
      && (Listed(s, n) ==> n in s.overlapped)
  }

  ghost predicate ListedOk(s: State, n: string) {
    Listed(s, n) ==> n in s.overlapped || (n in s.rows && s.rows[n].lastSeen < s.sweep.cutoff)
  }

  ghost predicate SweepOk(s: State) {
    s.sweep.Sweeping? ==> s.floor.Some? && s.sweep.cutoff <= s.floor.value
  }

  ghost predicate ClockOk(s: State) {
    s.steady && s.sweep.Sweeping? ==>
      s.sweep.cutoff < s.now && forall n :: n in Stale(s.rows, s.sweep.cutoff) ==> n in s.sweep.stale
  }

  ghost predicate Inv(hash: Hash, s: State) {
    FilesOk(hash, s) && SweepOk(s) && ClockOk(s)
    && (forall n :: RowOk(s, n) && ListedOk(s, n))
    && forall id :: ArrivalOk(hash, s, id)
  }

  lemma InvStep(hash: Hash, s: State, e: Event)
    requires Inv(hash, s) && Enabled(hash, s, e)
    ensures Inv(hash, After(hash, s, e))
  {
    var s' := After(hash, s, e);
    forall n ensures RowOk(s', n) && ListedOk(s', n) {
      RowStep(hash, s, e, n);
    }
    forall id ensures ArrivalOk(hash, s', id) {
      ArrivalStep(hash, s, e, id);
    }
    ClockStep(hash, s, e);
    FilesStep(hash, s, e);
  }

  lemma RowStep(hash: Hash, s: State, e: Event, n: string)
    requires Inv(hash, s) && Enabled(hash, s, e)
    ensures RowOk(After(hash, s, e), n) && ListedOk(After(hash, s, e), n)
  {
    assert RowOk(s, n) && ListedOk(s, n);
    if e.Recorded? {
      assert ArrivalOk(hash, s, e.id);
    }
  }

  lemma ArrivalStep(hash: Hash, s: State, e: Event, id: nat)
    requires Inv(hash, s) && Enabled(hash, s, e)
    ensures ArrivalOk(hash, After(hash, s, e), id)
  {
    assert ArrivalOk(hash, s, id);
    if e == Unlink(true) && id in s.arrivals && s.arrivals[id].at in {Found, Placed} {
      assert CountedOn(hash, s, NameOf(hash, s, id));
    }
  }

  lemma ClockStep(hash: Hash, s: State, e: Event)
    requires Inv(hash, s) && Enabled(hash, s, e)
    ensures ClockOk(After(hash, s, e))
  {
  }

  lemma FilesStep(hash: Hash, s: State, e: Event)
    requires Inv(hash, s) && Enabled(hash, s, e)
    ensures FilesOk(hash, After(hash, s, e)) && SweepOk(After(hash, s, e))
  {
  }

  lemma {:induction false} InvRun(hash: Hash, states: seq<State>, es: seq<Event>, i: nat)
    requires Run(hash, states, es) && i <= |es|
    ensures Inv(hash, states[i])
  {
    if i > 0 {
      InvRun(hash, states, es, i - 1);
      InvStep(hash, states[i - 1], es[i - 1]);
    }
  }

  lemma InvReachable(hash: Hash, s: State)
    requires Reachable(hash, s)
    ensures Inv(hash, s)
  {
    var states, es :| Run(hash, states, es) && states[|es|] == s;
    InvRun(hash, states, es, |es|);
  }

  // --- Theorems ---

  // Every file's contents hash to its name, in every reachable state: a name never
  // shows a half-written file.
  lemma FilesHashToNames(hash: Hash, s: State)
    requires Reachable(hash, s)
    ensures HashedNames(hash, s.files)
  {
    InvReachable(hash, s);
  }

  // Event k of the run struck n, and up to step i no arrival has put its file back.
  ghost predicate LostAt(hash: Hash, states: seq<State>, es: seq<Event>, n: string, k: nat, i: nat)
    requires Path(hash, states, es) && i <= |es|
  {
    k < i && Strikes(hash, states[k], es[k], n)
    && forall j :: k < j < i ==> !PutsBack(hash, states[j], es[j], n)
  }

  // By step i of the run the file of n was unlinked under a fresh row or under an
  // arrival that counted on it, and no arrival has put it back since.
  ghost predicate LostBy(hash: Hash, states: seq<State>, es: seq<Event>, n: string, i: nat)
    requires Path(hash, states, es) && i <= |es|
  {
    exists k :: LostAt(hash, states, es, n, k, i)
  }

  lemma LostNext(hash: Hash, states: seq<State>, es: seq<Event>, n: string, i: nat)
    requires Path(hash, states, es) && i < |es|
    ensures LostBy(hash, states, es, n, i + 1)
       <==> Strikes(hash, states[i], es[i], n)
            || (LostBy(hash, states, es, n, i) && !PutsBack(hash, states[i], es[i], n))
  {
    if Strikes(hash, states[i], es[i], n) {
      assert LostAt(hash, states, es, n, i, i + 1);
    } else if LostBy(hash, states, es, n, i) && !PutsBack(hash, states[i], es[i], n) {
      StaysLost(hash, states, es, n, i);
    } else if LostBy(hash, states, es, n, i + 1) {
      WasLost(hash, states, es, n, i);
    }
  }

  lemma StaysLost(hash: Hash, states: seq<State>, es: seq<Event>, n: string, i: nat)
    requires Path(hash, states, es) && i < |es|
    requires LostBy(hash, states, es, n, i) && !PutsBack(hash, states[i], es[i], n)
    ensures LostBy(hash, states, es, n, i + 1)
  {
    var k :| LostAt(hash, states, es, n, k, i);
    assert LostAt(hash, states, es, n, k, i + 1);
  }

  lemma WasLost(hash: Hash, states: seq<State>, es: seq<Event>, n: string, i: nat)
    requires Path(hash, states, es) && i < |es|
    requires LostBy(hash, states, es, n, i + 1) && !Strikes(hash, states[i], es[i], n)
    ensures LostBy(hash, states, es, n, i) && !PutsBack(hash, states[i], es[i], n)
  {
    var k: nat :| LostAt(hash, states, es, n, k, i + 1);
    assert LostAt(hash, states, es, n, k, i);
  }

  lemma {:induction false} GoneIsLost(hash: Hash, states: seq<State>, es: seq<Event>, n: string, i: nat)
    requires Run(hash, states, es) && i <= |es|
    ensures n in states[i].gone <==> LostBy(hash, states, es, n, i)
  {
    if i > 0 {
      GoneIsLost(hash, states, es, n, i - 1);
      GoneStep(hash, states[i - 1], es[i - 1], n);
      LostNext(hash, states, es, n, i - 1);
    }
  }

  lemma GoneStep(hash: Hash, s: State, e: Event, n: string)
    requires Enabled(hash, s, e)
    ensures n in After(hash, s, e).gone <==> (Strikes(hash, s, e, n) || (n in s.gone && !PutsBack(hash, s, e, n)))
  {
  }

  // When a row that is not expired has no file: exactly when the file was unlinked
  // under a fresh row, or under an arrival between its check and its record, and was
  // not put back since.
  lemma LostExactly(hash: Hash, states: seq<State>, es: seq<Event>, n: string)
    requires Run(hash, states, es)
    requires n in states[|es|].rows && !Expired(states[|es|], n)
    ensures n !in states[|es|].files <==> LostBy(hash, states, es, n, |es|)
  {
    InvRun(hash, states, es, |es|);
    GoneIsLost(hash, states, es, n, |es|);
    assert RowOk(states[|es|], n);
  }

  // n is on the sweep's list and an arrival of n is between its check and its record.
  ghost predicate Overlap(hash: Hash, s: State, n: string) {
    Listed(s, n) && exists id :: id in s.arrivals && NameOf(hash, s, id) == n
  }

  predicate BoundsSweep(e: Event) {
    e.Select? || e.BulkDelete? || e.SweepFails? || e.Crash?
  }

  // It was so at step k, and the sweep that ran then still runs at step i.
  ghost predicate OverlapAt(hash: Hash, states: seq<State>, es: seq<Event>, n: string, k: nat, i: nat)
    requires Path(hash, states, es) && i <= |es|
  {
    k <= i && Overlap(hash, states[k], n) && forall j :: k <= j < i ==> !BoundsSweep(es[j])
  }

  // It was so at some moment since the sweep that runs at step i began.
  ghost predicate OverlapInSweep(hash: Hash, states: seq<State>, es: seq<Event>, n: string, i: nat)
    requires Path(hash, states, es) && i <= |es|
  {
    exists k :: OverlapAt(hash, states, es, n, k, i)
  }

  lemma OverlapNext(hash: Hash, states: seq<State>, es: seq<Event>, n: string, i: nat)
    requires Path(hash, states, es) && i < |es|
    requires Overlap(hash, states[i + 1], n) || (OverlapInSweep(hash, states, es, n, i) && !BoundsSweep(es[i]))
    ensures OverlapInSweep(hash, states, es, n, i + 1)
  {
    if Overlap(hash, states[i + 1], n) {
      assert OverlapAt(hash, states, es, n, i + 1, i + 1);
    } else {
      var k :| OverlapAt(hash, states, es, n, k, i);
      assert OverlapAt(hash, states, es, n, k, i + 1);
    }
  }

  lemma {:induction false} OverlapHappened(hash: Hash, states: seq<State>, es: seq<Event>, n: string, i: nat)
    requires Run(hash, states, es) && i <= |es|
    ensures n in states[i].overlapped ==> OverlapInSweep(hash, states, es, n, i)
  {
    if i > 0 && n in states[i].overlapped {
      OverlapHappened(hash, states, es, n, i - 1);
      if n !in states[i - 1].overlapped || BoundsSweep(es[i - 1]) {
        OverlapStep(hash, states[i - 1], es[i - 1], n);
      }
      OverlapNext(hash, states, es, n, i - 1);
    }
  }

  lemma OverlapStep(hash: Hash, s: State, e: Event, n: string)
    requires Enabled(hash, s, e) && n in After(hash, s, e).overlapped
    requires n !in s.overlapped || BoundsSweep(e)
    ensures Overlap(hash, After(hash, s, e), n)
  {
    var s' := After(hash, s, e);
    if e.Check? {
      assert e.id in s'.arrivals && NameOf(hash, s', e.id) == n;
    } else {
      var id :| id in s.arrivals && NameOf(hash, s, id) in e.stale && NameOf(hash, s, id) == n;
      assert id in s'.arrivals && NameOf(hash, s', id) == n;
    }
  }

  // Every unlink that loses a file strikes a name of which an arrival was under way,
  // between check and record, at some moment of that very sweep.
  lemma StrikeIsRace(hash: Hash, states: seq<State>, es: seq<Event>, n: string, i: nat)
    requires Run(hash, states, es) && i < |es| && Strikes(hash, states[i], es[i], n)
    ensures OverlapInSweep(hash, states, es, n, i)
  {
    var s := states[i];
    InvRun(hash, states, es, i);
    assert Listed(s, n) && ListedOk(s, n);
    if CountedOn(hash, s, n) {
      var id :| id in s.arrivals && NameOf(hash, s, id) == n;
      assert ArrivalOk(hash, s, id);
    }
    OverlapHappened(hash, states, es, n, i);
  }

  // While the clock is never set back, the bulk DELETE only drops rows the SELECT
  // listed: no reference recorded during the sweep is forgotten.
  lemma DeleteDropsOnlyListed(hash: Hash, s: State, n: string)
    requires Reachable(hash, s) && s.steady && Enabled(hash, s, BulkDelete)
    requires n in s.rows && n !in After(hash, s, BulkDelete).rows
    ensures Listed(s, n)
  {
    InvReachable(hash, s);
  }

  // n has a row that the running sweep, if there is one, will keep, and no file.
  ghost predicate Lost(s: State, n: string) {
    n in s.rows && n !in s.files && (s.sweep.Sweeping? ==> s.rows[n].lastSeen >= s.sweep.cutoff)
  }

  // Each such unlink does lose the file, from any reachable state with the clock
  // steady: for the row that is fresh already, and for the row of every arrival that
  // counted on the file, once it is recorded.
  lemma StrikeLosesFile(hash: Hash, s: State, n: string)
    requires Reachable(hash, s) && s.steady && Strikes(hash, s, Unlink(true), n) && n != ""
    ensures var s' := After(hash, s, Unlink(true));
      n !in s'.files
      && (FreshRow(s, n) ==> Lost(s', n))
      && forall id :: id in s.arrivals && NameOf(hash, s, id) == n && s.arrivals[id].at in {Found, Placed} ==>
           Enabled(hash, s', Recorded(id)) && Lost(After(hash, s', Recorded(id)), n)
  {
    InvReachable(hash, s);
  }

  lemma LossStep(hash: Hash, s: State, e: Event, n: string)
    requires Inv(hash, s) && s.steady && Enabled(hash, s, e) && Lost(s, n)
    requires !e.Select? && !PutsBack(hash, s, e, n)
    ensures Lost(After(hash, s, e), n)
  {
  }

  // From then on only a new arrival that writes the file, or a later sweep that lists
  // the row, ends the loss.
  lemma {:induction false} LossPersists(hash: Hash, states: seq<State>, es: seq<Event>, n: string)
    requires Path(hash, states, es) && Reachable(hash, states[0]) && Lost(states[0], n)
    requires forall i :: 0 <= i < |es| ==>
      states[i].steady && !es[i].Select? && !PutsBack(hash, states[i], es[i], n)
    ensures Lost(states[|es|], n)
  {
    if es != [] {
      InvReachable(hash, states[0]);
      LossStep(hash, states[0], es[0], n);
      ReachableStep(hash, states[0], es[0]);
      PathTail(hash, states, es);
      LossPersists(hash, states[1..], es[1..], n);
    }
  }

  lemma PathTail(hash: Hash, states: seq<State>, es: seq<Event>)
    requires Path(hash, states, es) && es != []
    ensures Path(hash, states[1..], es[1..])
    ensures states[1] == After(hash, states[0], es[0]) && states[1..][|es| - 1] == states[|es|]
  {
    forall i | 0 <= i < |es| - 1
      ensures Enabled(hash, states[1..][i], es[1..][i]) && states[1..][i + 1] == After(hash, states[1..][i], es[1..][i])
    {
      assert states[1..][i] == states[i + 1] && es[1..][i] == es[i + 1];
    }
  }

  lemma PathMore(hash: Hash, states: seq<State>, es: seq<Event>, e: Event)
    requires Path(hash, states, es) && Enabled(hash, states[|es|], e)
    ensures Path(hash, states + [After(hash, states[|es|], e)], es + [e])
  {
  }

  lemma ReachableStep(hash: Hash, s: State, e: Event)
    requires Reachable(hash, s) && Enabled(hash, s, e)
    ensures Reachable(hash, After(hash, s, e))
  {
    var states, es :| Run(hash, states, es) && states[|es|] == s;
    PathMore(hash, states, es, e);
    var more, events := states + [After(hash, s, e)], es + [e];
    assert Run(hash, more, events) && more[|events|] == After(hash, s, e);
  }

  lemma OrphanStep(hash: Hash, s: State, e: Event, n: string)
    requires Enabled(hash, s, e) && n in s.files && n !in s.rows && !Listed(s, n)
    requires !(e.Recorded? && NameOf(hash, s, e.id) == n)
    ensures var s' := After(hash, s, e); n in s'.files && n !in s'.rows && !Listed(s', n)
  {
  }

  // A file without a row is out of reach of every sweep: it stays through any run in
  // which its name is not recorded again.
  lemma {:induction false} OrphanStays(hash: Hash, states: seq<State>, es: seq<Event>, n: string)
    requires Path(hash, states, es)
    requires n in states[0].files && n !in states[0].rows && !Listed(states[0], n)
    requires forall i :: 0 <= i < |es| ==> !(es[i].Recorded? && NameOf(hash, states[i], es[i].id) == n)
    ensures n in states[|es|].files && n !in states[|es|].rows
  {
    if es != [] {
      OrphanStep(hash, states[0], es[0], n);
      PathTail(hash, states, es);
      assert forall i :: 0 <= i < |es| - 1 ==> es[1..][i] == es[i + 1] && states[1..][i] == states[i + 1];
      OrphanStays(hash, states[1..], es[1..], n);
    }
  }

  // --- A run that loses a file ---

  lemma Extend(hash: Hash, states: seq<State>, es: seq<Event>, e: Event) returns (states': seq<State>, es': seq<Event>)
    requires Run(hash, states, es) && Enabled(hash, states[|es|], e)
    ensures es' == es + [e] && Run(hash, states', es')
    ensures states'[|es'|] == After(hash, states[|es|], e)
  {
    PathMore(hash, states, es, e);
    states', es' := states + [After(hash, states[|es|], e)], es + [e];
  }

  // One file arrives, undisturbed, at time 0.
  function Arrived(hash: Hash, bytes: seq<Byte>): State {
    INIT.(rows := map[hash(bytes) := Row(0, 0, 1)], files := map[hash(bytes) := bytes])
  }

  lemma FirstArrival(hash: Hash, bytes: seq<Byte>) returns (states: seq<State>, es: seq<Event>)
    requires hash(bytes) != ""
    ensures es == [Check(0, bytes), WriteTemp(0), Place(0), Recorded(0)] && Run(hash, states, es)
    ensures states[|es|] == Arrived(hash, bytes)
  {
    states, es := Extend(hash, [INIT], [], Check(0, bytes));
    states, es := Extend(hash, states, es, WriteTemp(0));
    states, es := Extend(hash, states, es, Place(0));
    states, es := Extend(hash, states, es, Recorded(0));
    assert states[|es|].arrivals == map[] && states[|es|].temps == map[] && states[|es|].gone == {};
  }

  // It arrives again at 100, and a sweep lists it before the record.
  function ArrivedTwice(hash: Hash, bytes: seq<Byte>): State {
    Arrived(hash, bytes).(now := 100, arrivals := map[1 := Arrival(bytes, Found)], floor := Some(50),
                          sweep := Sweeping(50, [hash(bytes)], 0), overlapped := {hash(bytes)})
  }

  lemma SecondArrival(hash: Hash, bytes: seq<Byte>, states: seq<State>, es: seq<Event>)
    returns (states': seq<State>, es': seq<Event>)
    requires hash(bytes) != "" && Run(hash, states, es) && states[|es|] == Arrived(hash, bytes)
    ensures es' == es + [Clock(100), Check(1, bytes), Select(50, [hash(bytes)])] && Run(hash, states', es')
    ensures states'[|es'|] == ArrivedTwice(hash, bytes)
  {
    states', es' := Extend(hash, states, es, Clock(100));
    states', es' := Extend(hash, states', es', Check(1, bytes));
    SelectLists(hash, bytes, states'[|es'|]);
    states', es' := Extend(hash, states', es', Select(50, [hash(bytes)]));
  }

  lemma SelectLists(hash: Hash, bytes: seq<Byte>, s: State)
    requires s.sweep.Idle? && s.now == 100 && s.rows == map[hash(bytes) := Row(0, 0, 1)] && s.floor.None?
    requires s.arrivals == map[1 := Arrival(bytes, Found)]
    ensures var e := Select(50, [hash(bytes)]);
      Enabled(hash, s, e)
      && After(hash, s, e)
         == s.(sweep := Sweeping(50, [hash(bytes)], 0), floor := Some(50), overlapped := {hash(bytes)})
  {
    var listed := [hash(bytes)];
    assert forall n :: n in listed <==> n == hash(bytes);
    assert (set id | id in s.arrivals && NameOf(hash, s, id) in listed :: NameOf(hash, s, id)) == {hash(bytes)} by {
      assert 1 in s.arrivals && NameOf(hash, s, 1) == hash(bytes);
    }
  }

  // The unlink, the record and the bulk DELETE, in this order.
  lemma RaceEnds(hash: Hash, bytes: seq<Byte>, states: seq<State>, es: seq<Event>)
    returns (states': seq<State>, es': seq<Event>)
    requires hash(bytes) != "" && Run(hash, states, es) && states[|es|] == ArrivedTwice(hash, bytes)
    ensures es' == es + [Unlink(true), Recorded(1), BulkDelete] && Run(hash, states', es')
    ensures var s := states'[|es'|];
      s.sweep.Idle? && s.arrivals == map[] && s.steady
      && hash(bytes) in s.rows && hash(bytes) !in s.files && !Expired(s, hash(bytes))
  {
    states', es' := Extend(hash, states, es, Unlink(true));
    assert states'[|es'|].files == map[];
    states', es' := Extend(hash, states', es', Recorded(1));
    assert states'[|es'|].rows == map[hash(bytes) := Row(0, 100, 2)] && states'[|es'|].arrivals == map[];
    states', es' := Extend(hash, states', es', BulkDelete);
  }

  // The shortest such run: one file, recorded at 0, arriving again at 100 just as a
  // sweep with retention 50 lists it. No fault strikes and the sweep completes.
  lemma RowWithoutFileReachable(hash: Hash, bytes: seq<Byte>) returns (states: seq<State>, es: seq<Event>)
    requires hash(bytes) != ""
    ensures es == [Check(0, bytes), WriteTemp(0), Place(0), Recorded(0), Clock(100), Check(1, bytes),
                   Select(50, [hash(bytes)]), Unlink(true), Recorded(1), BulkDelete]
    ensures Run(hash, states, es)
    ensures var s := states[|es|];
      s.sweep.Idle? && s.arrivals == map[] && s.steady
      && hash(bytes) in s.rows && hash(bytes) !in s.files && !Expired(s, hash(bytes))
  {
    states, es := FirstArrival(hash, bytes);
    states, es := SecondArrival(hash, bytes, states, es);
    states, es := RaceEnds(hash, bytes, states, es);
  }
}
