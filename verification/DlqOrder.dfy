// The crash order of move_to_dlq (src/outbound_queue.rs): the tombstone is
// appended before the DLQ row, and a crash may strike between the two.
module DlqOrder {
  import opened Wrappers
  import opened QueueLog
  import opened Dispatcher
  import opened DispatcherRuns

  function CountJobs(jobs: seq<Job>, id: string): nat {
    if jobs == [] then 0
    else CountJobs(jobs[..|jobs| - 1], id) + if jobs[|jobs| - 1].messageId == id then 1 else 0
  }

  lemma CountJobsAppend(jobs: seq<Job>, j: Job, id: string)
    ensures CountJobs(jobs + [j], id) == CountJobs(jobs, id) + if j.messageId == id then 1 else 0
  {
    assert (jobs + [j])[..|jobs|] == jobs;
  }

  // Whether the tombstone for id is written and its DLQ row is not.
  function Between(s: State, id: string): nat {
    if s.phase.BetweenAppends? && s.phase.job.messageId == id then 1 else 0
  }

  ghost predicate IsSuffix(s: seq<Job>, all: seq<Job>) {
    |s| <= |all| && s == all[|all| - |s|..]
  }

  // An id is condemned at most once and never live afterwards; each condemnation
  // is one row the DLQ got, or one row a fault cut off, or the one being moved. extra:
  // what something outside this machine adds.
  ghost predicate DlqLedger(s: State, id: string, extra: nat) {
    Count(s.h.condemned, id) == CountJobs(s.h.dlqEver, id) + Count(s.h.cut, id) + Between(s, id)
    && Count(s.h.condemned, id) + LiveCount(s, id) <= (if id in s.h.accepted then 1 else 0) + extra
  }

  ghost predicate DlqFile(s: State) {
    IsSuffix(s.dlq, s.h.dlqEver) && (!s.h.trimmed ==> s.dlq == s.h.dlqEver)
  }

  lemma DlqFault(s: State, e: Event, id: string, extra: nat)
    requires Enabled(s, e) && DlqLedger(s, id, extra) && (e.IoError? || e.Crash?)
    ensures DlqLedger(After(s, e), id, extra)
  {
    StepLive(s, e);
    if s.phase.BetweenAppends? {
      CountAppend(s.h.cut, s.phase.job.messageId, id);
    } else {
      assert s.h.cut + [] == s.h.cut;
    }
  }

  // Giving up condemns the job and leaves it between the appends; no other verdict does.
  lemma SettleCondemns(s: State, e: Event, id: string)
    requires Enabled(s, e) && e.Settle?
    ensures var t := After(s, e);
      var own := Decide(s.phase.job, s.phase.reply, e.retryAt).GiveUp? && s.phase.job.messageId == id;
      t.h.dlqEver == s.h.dlqEver && t.h.cut == s.h.cut && t.h.accepted == s.h.accepted
      && Count(t.h.condemned, id) == Count(s.h.condemned, id) + (if own then 1 else 0)
      && Between(t, id) == (if own then 1 else 0) && Between(s, id) == 0
  {
    CountAppend(s.h.condemned, s.phase.job.messageId, id);
  }

  lemma DlqSettle(s: State, e: Event, id: string, extra: nat)
    requires Enabled(s, e) && Structure(s) && DlqLedger(s, id, extra) && e.Settle?
    ensures DlqLedger(After(s, e), id, extra)
  {
    StepLive(s, e);
    SettledLive(s, e);
    assert s.phase.job.messageId in Fold(s.rows);
    SettleCondemns(s, e, id);
    var own := Decide(s.phase.job, s.phase.reply, e.retryAt).GiveUp? && s.phase.job.messageId == id;
    assert LiveCount(After(s, e), id) + (if own then 1 else 0) <= LiveCount(s, id);
  }

  lemma DlqWrite(s: State, e: Event, id: string, extra: nat)
    requires Enabled(s, e) && DlqLedger(s, id, extra) && e.WriteDlq?
    ensures DlqLedger(After(s, e), id, extra)
  {
    StepLive(s, e);
    CountJobsAppend(s.h.dlqEver, s.phase.job, id);
    var t := After(s, e);
    assert t.h.dlqEver == s.h.dlqEver + [s.phase.job] && t.h.condemned == s.h.condemned && t.h.cut == s.h.cut;
    assert Between(t, id) == 0 && LiveCount(t, id) == LiveCount(s, id);
  }

  lemma DlqAccept(s: State, e: Event, id: string, extra: nat)
    requires Enabled(s, e) && Structure(s) && DlqLedger(s, id, extra) && e.Accept?
    ensures DlqLedger(After(s, e), id, extra)
  {
    StepLive(s, e);
    assert forall k :: k in LiveJobs(s) ==> k in Fold(s.rows);
  }

  lemma DlqStep(s: State, e: Event, id: string, extra: nat)
    requires Enabled(s, e) && Structure(s) && DlqLedger(s, id, extra)
    ensures DlqLedger(After(s, e), id, extra)
  {
    match e
    case Settle(_) => DlqSettle(s, e, id, extra);
    case WriteDlq => DlqWrite(s, e, id, extra);
    case Accept(_) => DlqAccept(s, e, id, extra);
    case IoError => DlqFault(s, e, id, extra);
    case Crash => DlqFault(s, e, id, extra);
    case _ => StepLive(s, e);
  }

  // One job more at the end of both, or some fewer at the front of the tail.
  lemma TailGrows(ever: seq<Job>, tail: seq<Job>, job: Job)
    requires IsSuffix(tail, ever)
    ensures IsSuffix(tail + [job], ever + [job])
  {
  }

  lemma TailTrimmed(ever: seq<Job>, tail: seq<Job>, max: nat)
    requires IsSuffix(tail, ever)
    ensures IsSuffix(LastRows(tail, max), ever)
  {
  }

  lemma DlqFileWrite(s: State, e: Event)
    requires Enabled(s, e) && DlqFile(s) && e.WriteDlq?
    ensures DlqFile(After(s, e))
  {
    TailGrows(s.h.dlqEver, s.dlq, s.phase.job);
  }

  lemma DlqFileTrim(s: State, e: Event)
    requires Enabled(s, e) && DlqFile(s) && e.TrimDlq?
    ensures DlqFile(After(s, e))
  {
    if 0 < e.max < |s.dlq| {
      TailTrimmed(s.h.dlqEver, s.dlq, e.max);
    }
  }

  lemma DlqUntouched(s: State, e: Event)
    requires Enabled(s, e) && !e.WriteDlq? && !e.TrimDlq?
    ensures After(s, e).dlq == s.dlq && After(s, e).h.dlqEver == s.h.dlqEver && After(s, e).h.trimmed == s.h.trimmed
  {
  }

  lemma DlqFileStep(s: State, e: Event)
    requires Enabled(s, e) && DlqFile(s)
    ensures DlqFile(After(s, e))
  {
    if e.WriteDlq? {
      DlqFileWrite(s, e);
    } else if e.TrimDlq? {
      DlqFileTrim(s, e);
    } else {
      DlqUntouched(s, e);
    }
  }

  lemma {:induction false} CountMember(ids: seq<string>, id: string)
    ensures id in ids <==> Count(ids, id) > 0
  {
    if ids != [] {
      CountMember(ids[..|ids| - 1], id);
    }
  }

  lemma {:induction false} CountJobsMember(jobs: seq<Job>, id: string)
    ensures (exists j :: j in jobs && j.messageId == id) <==> CountJobs(jobs, id) > 0
  {
    if jobs != [] {
      var n := |jobs| - 1;
      CountJobsMember(jobs[..n], id);
      assert jobs == jobs[..n] + [jobs[n]];
    }
  }

  // --- Tombstones ---

  // Replies after which a job is never sent again.
  predicate IsFinal(r: Resolution) {
    r.reply.Delivered? || r.reply.Permanent? || r.job.attempts + 1 >= MAX_ATTEMPTS
  }

  ghost predicate HasFinalReply(s: State, id: string) {
    exists r :: r in s.h.resolutions && r.job.messageId == id && IsFinal(r)
  }

  ghost predicate TombstoneLedger(s: State) {
    (forall id :: id in Fold(s.rows) && Fold(s.rows)[id].done ==> HasFinalReply(s, id))
    && (s.phase.Deciding? ==> Resolution(s.phase.job, s.phase.reply) in s.h.resolutions)
  }

  // Ids whose latest row is a tombstone after the step were tombstoned before,
  // or are the job that was just settled for good.
  lemma NewTombstones(s: State, e: Event, id: string)
    requires Enabled(s, e) && Structure(s)
    requires id in Fold(After(s, e).rows) && Fold(After(s, e).rows)[id].done
    ensures (id in Fold(s.rows) && Fold(s.rows)[id].done)
         || (e.Settle? && id == s.phase.job.messageId
             && !Decide(s.phase.job, s.phase.reply, e.retryAt).Retry?)
  {
    match e
    case Accept(job) => FoldAppend(s.rows, job);
    case Settle(retryAt) => {
      var job := s.phase.job;
      RetryRow(s, retryAt);
      match Decide(job, s.phase.reply, retryAt) {
        case Finish => FoldAppend(s.rows, Tombstone(Fold(s.rows)[job.messageId]));
        case GiveUp(_) => FoldAppend(s.rows, Tombstone(job));
        case Retry(updated, _) => FoldAppend(s.rows, updated);
      }
    }
    case Compact(rows) => CompactFold(s.rows, rows);
    case _ =>
  }

  lemma TombstoneStep(s: State, e: Event)
    requires Enabled(s, e) && Structure(s) && TombstoneLedger(s)
    ensures TombstoneLedger(After(s, e))
  {
    var t := After(s, e);
    assert forall r :: r in s.h.resolutions ==> r in t.h.resolutions;
    if e.Reply? {
      assert t.h.resolutions[|s.h.resolutions|] == Resolution(s.phase.job, e.reply);
    }
    forall id | id in Fold(t.rows) && Fold(t.rows)[id].done
      ensures HasFinalReply(t, id)
    {
      NewTombstones(s, e, id);
      if id in Fold(s.rows) && Fold(s.rows)[id].done {
        assert HasFinalReply(s, id);
      } else {
        RetryRow(s, e.retryAt);
        assert IsFinal(Resolution(s.phase.job, s.phase.reply));
      }
    }
  }
}
