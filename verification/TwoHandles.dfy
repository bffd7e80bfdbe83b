// Two OutboundQueue objects over one file. A reload opens a changed account's queue anew,
// with a lock of its own, while an enqueue that looked the account up before still holds
// the old object (src/outbound.rs). An append opens the file and writes to it; a
// compaction reads it, writes a new one and renames that over it. The old lock does not
// keep the two apart.
module TwoHandles {
  import opened Wrappers
  import opened QueueLog

  // rows: of the file the path leads to. renames: how often it was replaced. held: the
  // file the old object has open, by that count. seen: what the new object's compaction
  // has read, from its read to its rename.
  datatype State = State(rows: seq<Job>, renames: nat, held: Option<nat>, seen: Option<seq<Job>>)

  // Open and Write are the two halves of an append by the old object; Append is one by
  // the new object, which its own lock keeps out of its compactions.
  datatype Event =
    | Open
    | Write(job: Job)
    | Append(job: Job)
    | Read
    | Rename(live: seq<Job>)
    | Release

  ghost predicate Enabled(s: State, e: Event) {
    match e
    case Open => s.held.None?
    case Write(_) => s.held.Some?
    case Append(_) => s.seen.None?
    case Read => s.seen.None?
    case Rename(live) => s.seen.Some? && NeedsCompaction(s.seen.value) && Enumerates(live, Live(s.seen.value))
    // Compaction is not due, or fails before its rename.
    case Release => s.seen.Some?
  }

  ghost function After(s: State, e: Event): State
    requires Enabled(s, e)
  {
    match e
    case Open => s.(held := Some(s.renames))
    // A file that was replaced since it was opened is no longer the one the path leads to.
    case Write(job) =>
      s.(rows := if s.held.value == s.renames then s.rows + [job] else s.rows, held := None)
    case Append(job) => s.(rows := s.rows + [job])
    case Read => s.(seen := Some(s.rows))
    case Rename(live) => s.(rows := live, renames := s.renames + 1, seen := None)
    case Release => s.(seen := None)
  }

  // states[i + 1] is what events[i] makes of states[i].
  ghost predicate Path(states: seq<State>, events: seq<Event>) {
    |states| == |events| + 1
    && forall i :: 0 <= i < |events| ==> Enabled(states[i], events[i]) && states[i + 1] == After(states[i], events[i])
  }

  predicate WritesId(e: Event, id: string) {
    (e.Write? || e.Append?) && e.job.messageId == id
  }

  // The id is nowhere, not even in what a compaction has read.
  predicate Unknown(s: State, id: string) {
    id !in Fold(s.rows) && (s.seen.Some? ==> id !in Fold(s.seen.value))
  }

  // What becomes of the row of job: kept in the file and in what any compaction has read;
  // kept in the file, with a compaction under way that has not read it; or gone.
  datatype Standing = Kept | Exposed | Gone

  ghost predicate Stands(s: State, job: Job, t: Standing) {
    var id := job.messageId;
    match t
    case Kept =>
      id in Live(s.rows) && Live(s.rows)[id] == job
      && (s.seen.Some? ==> id in Live(s.seen.value) && Live(s.seen.value)[id] == job)
    case Exposed =>
      id in Live(s.rows) && Live(s.rows)[id] == job && s.seen.Some? && id !in Fold(s.seen.value)
    case Gone => Unknown(s, id)
  }

  lemma OtherRow(rows: seq<Job>, row: Job, id: string)
    requires row.messageId != id
    ensures id in Fold(rows + [row]) <==> id in Fold(rows)
    ensures id in Live(rows + [row]) <==> id in Live(rows)
    ensures id in Live(rows) ==> Live(rows + [row])[id] == Live(rows)[id]
  {
    FoldAppend(rows, row);
    LiveAppend(rows, row);
  }

  lemma Compacted(rows: seq<Job>, live: seq<Job>)
    requires NeedsCompaction(rows) && Enumerates(live, Live(rows))
    ensures Live(live) == Live(rows) && Fold(live) == Live(rows)
  {
    CompactFold(rows, live);
  }

  function NextStanding(t: Standing, e: Event): Standing {
    if t != Exposed then t else if e.Rename? then Gone else if e.Release? then Kept else Exposed
  }

  lemma StandingStep(s: State, e: Event, job: Job, t: Standing)
    requires Enabled(s, e) && Stands(s, job, t) && !WritesId(e, job.messageId)
    ensures Stands(After(s, e), job, NextStanding(t, e))
  {
    match e
    case Write(row) => OtherRow(s.rows, row, job.messageId);
    case Append(row) => OtherRow(s.rows, row, job.messageId);
    case Rename(live) => Compacted(s.seen.value, live);
    case _ =>
  }

  // From the write at step 0 on.
  function StandingOf(s: State, events: seq<Event>, n: nat): Standing
    requires 0 < n <= |events|
  {
    if n > 1 then NextStanding(StandingOf(s, events, n - 1), events[n - 1])
    else if s.held != Some(s.renames) then Gone
    else if s.seen.Some? then Exposed
    else Kept
  }

  // job is written at step 0, under an id nobody knows and nobody writes again.
  ghost predicate WrittenOnce(states: seq<State>, events: seq<Event>, job: Job) {
    Path(states, events) && events != [] && events[0] == Write(job) && !job.done
    && Unknown(states[0], job.messageId)
    && forall i :: 1 <= i < |events| ==> !WritesId(events[i], job.messageId)
  }

  lemma {:induction false} StandsAlong(states: seq<State>, events: seq<Event>, job: Job, n: nat)
    requires WrittenOnce(states, events, job) && 0 < n <= |events|
    ensures Stands(states[n], job, StandingOf(states[0], events, n))
  {
    if n == 1 {
      LiveAppend(states[0].rows, job);
      FoldAppend(states[0].rows, job);
    } else {
      StandsAlong(states, events, job, n - 1);
      StandingStep(states[n - 1], events[n - 1], job, StandingOf(states[0], events, n - 1));
    }
  }

  // No compaction has ended between step 1 and step n.
  predicate Unended(events: seq<Event>, n: nat)
    requires n <= |events|
  {
    forall k :: 1 <= k < n ==> !events[k].Rename? && !events[k].Release?
  }

  // The first to end has renamed its file.
  predicate Replaced(events: seq<Event>, n: nat)
    requires n <= |events|
  {
    exists m :: 1 <= m < n && events[m].Rename? && Unended(events, m)
  }

  lemma ReplacedNext(events: seq<Event>, n: nat)
    requires 1 <= n < |events|
    ensures Unended(events, n + 1) <==> Unended(events, n) && !events[n].Rename? && !events[n].Release?
    ensures Replaced(events, n + 1) <==> Replaced(events, n) || (Unended(events, n) && events[n].Rename?)
  {
  }

  lemma {:induction false} StandingExactly(s: State, events: seq<Event>, n: nat)
    requires 0 < n <= |events|
    ensures var t := StandingOf(s, events, n);
      (t == Exposed <==> s.held == Some(s.renames) && s.seen.Some? && Unended(events, n))
      && (t == Gone <==> s.held != Some(s.renames) || (s.seen.Some? && Replaced(events, n)))
  {
    if n > 1 {
      StandingExactly(s, events, n - 1);
      ReplacedNext(events, n - 1);
    }
  }

  // --- The results ---

  // A row the old object writes, and reports as enqueued, is lost exactly when the file
  // was replaced between its open and its write, or a compaction that had read the file
  // by then goes on to replace it. Otherwise it is a live row for good.
  lemma LostExactly(states: seq<State>, events: seq<Event>, job: Job, n: nat)
    requires WrittenOnce(states, events, job) && 0 < n <= |events|
    ensures job.messageId !in Live(states[n].rows)
       <==> (states[0].held != Some(states[0].renames) || (states[0].seen.Some? && Replaced(events, n)))
    ensures job.messageId in Live(states[n].rows) ==> Live(states[n].rows)[job.messageId] == job
  {
    StandsAlong(states, events, job, n);
    StandingExactly(states[0], events, n);
  }

  // The file is still the one that was opened unless it was replaced in between.
  lemma {:induction false} OpenStays(states: seq<State>, events: seq<Event>, n: nat)
    requires Path(states, events) && 0 < n <= |events| && events[0] == Open
    requires forall i :: 1 <= i < n ==> !events[i].Write?
    ensures states[n].held == Some(states[0].renames)
    ensures states[n].held == Some(states[n].renames) <==> forall i :: 1 <= i < n ==> !events[i].Rename?
    ensures states[n].renames >= states[0].renames
  {
    if n > 1 {
      OpenStays(states, events, n - 1);
    }
  }

  // One lock for both: no append while a compaction runs, no compaction during an append.
  predicate Locked(s: State, e: Event) {
    (e.Open? ==> s.seen.None?) && (e.Read? ==> s.held.None?)
  }

  lemma {:induction false} OneLockAt(states: seq<State>, events: seq<Event>, n: nat)
    requires Path(states, events) && states[0].held.None? && n <= |events|
    requires forall i :: 0 <= i < n ==> Locked(states[i], events[i])
    ensures states[n].held.Some? ==> states[n].seen.None? && states[n].held == Some(states[n].renames)
  {
    if n > 0 {
      OneLockAt(states, events, n - 1);
    }
  }

  // With one lock no row is lost, whatever else happens: this is what a queue that is
  // opened once has.
  lemma OneLockKeeps(states: seq<State>, events: seq<Event>, w: nat, n: nat, job: Job)
    requires Path(states, events) && states[0].held.None? && w < n <= |events|
    requires forall i :: 0 <= i < |events| ==> Locked(states[i], events[i])
    requires WrittenOnce(states[w..], events[w..], job)
    ensures job.messageId in Live(states[n].rows) && Live(states[n].rows)[job.messageId] == job
  {
    OneLockAt(states, events, w);
    LostExactly(states[w..], events[w..], job, n - w);
  }

  // A run that loses a row, for every file that is due for compaction and every job: the
  // compaction reads, the old object appends, the compaction renames.
  lemma LostToCompaction(rows: seq<Job>, live: seq<Job>, job: Job) returns (states: seq<State>)
    requires NeedsCompaction(rows) && Enumerates(live, Live(rows)) && job.messageId !in Fold(rows) && !job.done
    ensures Path(states, [Open, Read, Write(job), Rename(live)])
    ensures states[0] == State(rows, 0, None, None)
    ensures job.messageId in Live(states[3].rows) && job.messageId !in Live(states[4].rows)
  {
    var s0 := State(rows, 0, None, None);
    var s1 := After(s0, Open);
    var s2 := After(s1, Read);
    var s3 := After(s2, Write(job));
    states := [s0, s1, s2, s3, After(s3, Rename(live))];
    LiveAppend(rows, job);
    Compacted(rows, live);
  }
}
